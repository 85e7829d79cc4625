# Category form: URL slugs, name validation and submit dispatch

This project models the logic of the category form (`AddCategoryForm`),
a form that creates a category or renames the one its parent has
selected for editing. The model has four parts.

- **`generateUrlSlug`** (`UrlSlug`, `UrlSlugProperties`, `UrlSlugExamples`).
  A display name becomes the `CatURL` sent to the backend in four steps:
  lower-case and trim, whitespace runs to `-`, delete everything outside
  `[A-Za-z0-9_-]`, and merge runs of `--`. Each step is a function over
  ASCII characters. The proofs show that every slug is well formed:
  lower-case letters, digits, `_` and `-` only, and never `--`. Deleting
  the hyphens from a slug gives exactly the word characters of the name,
  lower-cased and in order. The slugs are exactly the generator's fixed
  points, so the generator is idempotent. Because the name is trimmed
  first, step 2 never puts a `-` made from whitespace at either end of
  its output. Steps 2 and 4, written as
  structural recursion, are proved equal to a left-to-right
  replace-longest-match reading of the regexes `/\s+/g` and `/--+/g`.
- **The field's validation rules** (`NameRules`). The rules are required,
  minimum length 3 and maximum length 50, each with its exact message. The
  first rule broken decides the verdict.
- **The submit** (`CategoryForm`).
  - The request a submit sends: the method and URL, the headers, and the
    `{CatName, CatURL}` body.
  - `SubmitOutcome` maps an abstract response to the parent callback it
    leads to:
    - 401 goes to `handleAuthError`;
    - another non-2xx status goes to `onError`, with the server's `msg` or a
      fallback naming the operation;
    - a 2xx status goes to `onCategoryUpdated` or `onCategoryAdded`;
    - a thrown error goes to `onError(message)`.
  - `Callbacks` adds what happens when that callback itself throws. It runs
    inside the handler's `try`, so unless it is `onError` its error is then
    reported through `onError` as well. Which callbacks throw is a parameter
    of the model.
- **The form as a stateful object** (class `CategoryForm.Form`).
  - Its fields are the name field, the editing target, the requests sent
    and the callbacks invoked.
  - The reset effect runs when the editing target changes.
  - Cancel clears the target.
  - `Submit` validates first and, for a valid name, runs
    `HandleFormSubmit`.
  - `HandleFormSubmit` builds the request, records it and records the
    callbacks that `Notify` invokes for the server's answer: the one
    `Respond` picks, then `onError` if that one throws.
  - The network is a parameter: a function from requests to responses.
  - `CategoryFormScenarios` drives a fresh form through six flows: create,
    update, a create whose callback throws, 401, a failed update and
    cancel.

## Model

| member | source | states |
|---|---|---|
| UrlSlug.Lower | src/components/category/AddCategoryForm.jsx:9 | lower-casing one character maps each of `A`-`Z` to its own letter of `a`-`z`, leaves no upper-case letter and keeps every other character, and it keeps the word and whitespace classes |
| UrlSlug.SkipWhile | src/components/category/AddCategoryForm.jsx:10-13 | removes exactly the longest prefix of characters satisfying the predicate: the result is a suffix of the input, every dropped character satisfies the predicate, and the result is empty or starts with one that does not; it is the start of `trim()` and the part of a string left after a regex run |
| UrlSlug.ToLower | src/components/category/AddCategoryForm.jsx:9 | `toLowerCase()` keeps the length, turns each of `A`-`Z` into its own letter of `a`-`z`, leaves no upper-case letter, changes no other character, and keeps each character a word character, whitespace or neither as it was |
| UrlSlug.Trim | src/components/category/AddCategoryForm.jsx:10 | `trim()` returns the slice of the input that is left after removing the whitespace before and after it; that slice neither starts nor ends with whitespace |
| UrlSlug.TrimEnd | src/components/category/AddCategoryForm.jsx:10 | the result is a prefix of the input; everything dropped is whitespace; the result is empty or ends with non-whitespace |
| UrlSlug.Filter | src/components/category/AddCategoryForm.jsx:12 | the deletion of step 3 keeps only characters satisfying the predicate and never lengthens the string; `FilterAppend`, `FilterIdentity` and `FilterNone` pin it completely |
| UrlSlugProperties.FilterAppend | src/components/category/AddCategoryForm.jsx:12 | filtering distributes over concatenation, so each character is kept or dropped on its own and the kept ones stay in order |
| UrlSlugProperties.FilterIdentity | src/components/category/AddCategoryForm.jsx:12 | a string all of whose characters satisfy the predicate is kept whole |
| UrlSlugProperties.FilterNone | src/components/category/AddCategoryForm.jsx:12 | a string none of whose characters satisfies the predicate leaves nothing behind |
| UrlSlug.ReplaceWhitespaceRuns | src/components/category/AddCategoryForm.jsx:11 | step 2 never lengthens the string and leaves no whitespace in it |
| UrlSlug.RemoveNonWord | src/components/category/AddCategoryForm.jsx:12 | step 3 never lengthens the string and leaves only word characters and hyphens; `RemoveNonWordDeletes` and `RemoveNonWordKeeps` say what happens to each character |
| UrlSlugProperties.RemoveNonWordDeletes | src/components/category/AddCategoryForm.jsx:12 | a character outside `[A-Za-z0-9_-]` is deleted wherever it stands, and nothing takes its place |
| UrlSlugProperties.RemoveNonWordKeeps | src/components/category/AddCategoryForm.jsx:12 | a word character or `-` is kept wherever it stands, between what is kept of its left and of its right |
| UrlSlug.CollapseHyphens | src/components/category/AddCategoryForm.jsx:13 | step 4 never lengthens the string and keeps its first character |
| UrlSlug.GenerateUrlSlug | src/components/category/AddCategoryForm.jsx:7-14 | the slug is never longer than the name; the lemmas of `UrlSlugProperties` below state its alphabet, the absence of `--`, the characters it keeps and its fixed points |
| UrlSlugProperties.ReplaceWhitespaceRunsIsRegexReplace | src/components/category/AddCategoryForm.jsx:11 | step 2 equals a scan that replaces each maximal whitespace run by one `-` and copies everything else |
| UrlSlugProperties.CollapseHyphensIsRegexReplace | src/components/category/AddCategoryForm.jsx:13 | step 4 equals a scan that replaces each maximal run of two or more `-` by one `-` and leaves a lone `-` alone |
| UrlSlugProperties.SlugAlphabet | src/components/category/AddCategoryForm.jsx:9-12 | every character of every slug is `a`-`z`, `0`-`9`, `_` or `-`, so no whitespace or upper-case letter survives |
| UrlSlugProperties.CollapseNoDoubleHyphen | src/components/category/AddCategoryForm.jsx:13 | after step 4 no two hyphens are adjacent, whatever its input |
| UrlSlugProperties.SlugNoDoubleHyphen | src/components/category/AddCategoryForm.jsx:7-14 | no slug contains `--` |
| UrlSlugProperties.SlugIsSlug | src/components/category/AddCategoryForm.jsx:7-14 | every slug is well formed (right alphabet, no `--`) |
| UrlSlugProperties.TrimStartKeepsWords | src/components/category/AddCategoryForm.jsx:10 | trimming the start keeps the word characters and their order |
| UrlSlugProperties.TrimEndKeepsWords | src/components/category/AddCategoryForm.jsx:10 | trimming the end keeps the word characters and their order |
| UrlSlugProperties.ReplaceWhitespaceRunsKeepsWords | src/components/category/AddCategoryForm.jsx:11 | step 2 keeps the word characters and their order |
| UrlSlugProperties.RemoveNonWordKeepsWords | src/components/category/AddCategoryForm.jsx:12 | step 3 keeps the word characters and their order |
| UrlSlugProperties.CollapseHyphensKeepsWords | src/components/category/AddCategoryForm.jsx:13 | step 4 keeps the word characters and their order |
| UrlSlugProperties.ToLowerCommutesWithWords | src/components/category/AddCategoryForm.jsx:9 | lower-casing, then taking the word characters, equals taking them and then lower-casing |
| UrlSlugProperties.ToLowerAppend | src/components/category/AddCategoryForm.jsx:9 | lower-casing works character by character, so it distributes over concatenation |
| UrlSlugProperties.SlugKeepsWordChars | src/components/category/AddCategoryForm.jsx:8-13 | deleting the hyphens of the slug gives exactly the word characters of the lower-cased name, in order |
| UrlSlugProperties.RunDashed | src/components/category/AddCategoryForm.jsx:11 | a whole run of whitespace after a whitespace-free part becomes one `-`, whether a whitespace-free part or nothing follows it |
| UrlSlugProperties.TrimSurrounded | src/components/category/AddCategoryForm.jsx:10 | `trim()` removes exactly the whitespace around a core that neither starts nor ends with whitespace |
| UrlSlugProperties.DashedKeepsLast | src/components/category/AddCategoryForm.jsx:11 | step 2 keeps a last character that is not whitespace as its own last character |
| UrlSlugProperties.TrimmedDashedEnds | src/components/category/AddCategoryForm.jsx:9-11 | because the name is trimmed before step 2, no `-` made from whitespace ever starts or ends step 2's output: it is empty exactly when the trimmed name is, and otherwise starts and ends with the trimmed name's own first and last characters |
| UrlSlugProperties.BlankNameHasEmptySlug | src/components/category/AddCategoryForm.jsx:8-11 | an empty or all-whitespace name has the empty slug |
| UrlSlugProperties.ReplaceWhitespaceRunsIdentity | src/components/category/AddCategoryForm.jsx:11 | step 2 leaves a string without whitespace unchanged |
| UrlSlugProperties.CollapseHyphensIdentity | src/components/category/AddCategoryForm.jsx:13 | step 4 leaves a string without `--` unchanged |
| UrlSlugProperties.SlugFixedPoint | src/components/category/AddCategoryForm.jsx:7-14 | a well-formed slug is its own slug |
| UrlSlugProperties.FixedPointsAreSlugs | src/components/category/AddCategoryForm.jsx:7-14 | a string is its own slug if and only if it is a well-formed slug |
| UrlSlugProperties.SlugIdempotent | src/components/category/AddCategoryForm.jsx:7-14 | applying the generator twice gives the same result as applying it once |
| UrlSlugExamples.SameLowerCaseSameSlug | src/components/category/AddCategoryForm.jsx:9 | names that lower-case alike have the same slug |
| UrlSlugExamples.LowerCaseSlug | src/components/category/AddCategoryForm.jsx:7-14 | a name whose lower-cased form is a slug has that slug |
| UrlSlugExamples.ExampleEmpty | src/components/category/AddCategoryForm.jsx:7-14 | the empty name has the empty slug |
| UrlSlugExamples.ExampleNewName | src/components/category/AddCategoryForm.jsx:7-14 | "New Name" becomes "new-name" |
| UrlSlugExamples.ExampleMultiSpace | src/components/category/AddCategoryForm.jsx:7-14 | "  Multi   Space  " becomes "multi-space": the outer runs are trimmed and the inner run becomes one `-` |
| UrlSlugExamples.ExampleLeadingHyphen | src/components/category/AddCategoryForm.jsx:7-14 | "& x" becomes "-x": a slug can start with a hyphen |
| UrlSlugExamples.ExampleElectronics | src/components/category/AddCategoryForm.jsx:7-14 | "Electronics" becomes "electronics" |
| UrlSlugExamples.ExampleAlreadySlugged | src/components/category/AddCategoryForm.jsx:7-14 | "already-slugged_123" is returned unchanged |
| UrlSlugExamples.ExampleCapitalisedSlug | src/components/category/AddCategoryForm.jsx:7-14 | "Already-slugged_123" becomes "already-slugged_123": only its capital changes |
| UrlSlugExamples.ExampleSpacedSymbol | src/components/category/AddCategoryForm.jsx:7-14 | "A & B" becomes "a-b": the `--` left by the deleted `&` is merged |
| UrlSlugExamples.ExampleSymbolsOnly | src/components/category/AddCategoryForm.jsx:7-14 | "&&&" has the empty slug |
| NameRules.Validate | src/components/category/AddCategoryForm.jsx:92-101 | accepts exactly the lengths 3 to 50; rejects "" as required, lengths 1-2 with the minimum-length message and lengths above 50 with the maximum-length message; the message is the broken rule's |
| NameRules.MessagesIdentifyRules | src/components/category/AddCategoryForm.jsx:93-100 | two rules have the same message if and only if they are the same rule |
| CategoryForm.BuildRequest | src/components/category/AddCategoryForm.jsx:47-58 | the request is a PUT exactly when a category is being edited, its URL lies under `{backendUrl}/api/cat`, and its body carries the name as typed |
| CategoryForm.RequestAddressesTarget | src/components/category/AddCategoryForm.jsx:47-50 | the request is a PUT if and only if a category is being edited; its URL lies under `{backendUrl}/api/cat` and names the edited category's id; for a create it is exactly `{backendUrl}/api/cat`, with no id |
| CategoryForm.RequestHeadersAndBody | src/components/category/AddCategoryForm.jsx:52-58 | JSON content type; the token, or "" when it is absent; `CatName` is the name as typed; `CatURL` is the slug of that name, so a well-formed slug, no longer than the name, and its own slug |
| CategoryForm.AcceptedNameSlug | src/components/category/AddCategoryForm.jsx:58 | a name that passes validation has a slug of at most 50 characters, which holds the name's lower-cased word characters |
| CategoryFormScenarios.AcceptedNameMayHaveEmptySlug | src/components/category/AddCategoryForm.jsx:58 | validation passes "&&&", and its slug is empty |
| CategoryForm.SubmitOutcome | src/components/category/AddCategoryForm.jsx:61-78 | the auth callback if and only if the status is 401; update or create success if and only if the status is 2xx, by mode; otherwise (a thrown error, or another status) `onError`, carrying the thrown message or the body's message |
| CategoryForm.ErrorMessage | src/components/category/AddCategoryForm.jsx:66-68 | `msg || fallback`: a JSON body always gives a non-empty message, the server's `msg` when it is a non-empty string and otherwise the fallback for the mode; a body that could not be read gives the error thrown while reading it |
| CategoryForm.FallbackNamesOperation | src/components/category/AddCategoryForm.jsx:66-68 | a failure without a usable `msg` (absent or "") reports the fallback naming "update" or "creation" by mode, and the two differ |
| CategoryForm.Callbacks | src/components/category/AddCategoryForm.jsx:61-77 | one or two callbacks: first the one `SubmitOutcome` gives; a second one, `onError` with the thrown message, exactly when the first is not `onError` and throws |
| CategoryForm.CallbacksOnce | src/components/category/AddCategoryForm.jsx:61-77 | when no callback throws, exactly one is invoked; whatever they do, `onError` can only come last |
| CategoryForm.ResetName | src/components/category/AddCategoryForm.jsx:36-42 | the field takes the selected category's name; without a selection it is emptied, and validation then stops it with the required message |
| CategoryForm.Respond | src/components/category/AddCategoryForm.jsx:61-78 | the if-chain of the handler (401, then `!res.ok`, then mode) and its `catch` pick exactly the callback that `SubmitOutcome` specifies |
| CategoryForm.Notify | src/components/category/AddCategoryForm.jsx:61-78 | the callbacks the handler invokes for a response are exactly those `Callbacks` specifies |
| CategoryForm.Form.constructor | src/components/category/AddCategoryForm.jsx:31-42 | on mount the field holds the target's name, or "" without a target; nothing has been sent |
| CategoryForm.Form.Edit | src/components/category/AddCategoryForm.jsx:92 | typing sets the field |
| CategoryForm.Form.SetEditingCategory | src/components/category/AddCategoryForm.jsx:36-42 | a new target sets the field to its name, or to "" when the target is absent; the same target again leaves the field as it is |
| CategoryForm.Form.Cancel | src/components/category/AddCategoryForm.jsx:122 | the target becomes absent and a previously edited name is cleared; no request is sent and no callback is invoked |
| CategoryForm.Form.Submit | src/components/category/AddCategoryForm.jsx:84 | the verdict is the name's validation; a rejected name sends nothing; an accepted one sends exactly the built request and records the callbacks `Callbacks` gives for the server's response |
| CategoryForm.Form.HandleFormSubmit | src/components/category/AddCategoryForm.jsx:45-79 | appends exactly one request, the built one, and the callbacks `Callbacks` gives for the server's response to that request: one, or two when a callback other than `onError` throws |
| CategoryFormScenarios.CreateRequest | src/components/category/AddCategoryForm.jsx:47-58 | a create is `POST {backendUrl}/api/cat` with JSON, token "" and body `{name, slug(name)}` |
| CategoryFormScenarios.UpdateRequest | src/components/category/AddCategoryForm.jsx:47-58 | an update is `PUT {backendUrl}/api/cat/{CatId}` with JSON, the token and body `{name, slug(name)}` |
| CategoryFormScenarios.SuccessCallsOnce | src/components/category/AddCategoryForm.jsx:71-75 | with callbacks that return normally, a 2xx answer invokes only the success callback of the mode |
| CategoryFormScenarios.CreateFlow | src/components/category/AddCategoryForm.jsx:45-79 | a valid name with a 201 answer sends one POST and calls only `onCategoryAdded` |
| CategoryFormScenarios.ThrowingCallbackFlow | src/components/category/AddCategoryForm.jsx:71-77 | when `onCategoryAdded` throws after a 201, `onError` is called next with its message |
| CategoryFormScenarios.SelectAndRename | src/components/category/AddCategoryForm.jsx:36-42 | on a fresh form, selecting a category fills the field with its name, read back from the field; typing then replaces it, and nothing is sent |
| CategoryFormScenarios.UpdateFlow | src/components/category/AddCategoryForm.jsx:36-79 | selecting a category pre-fills the field with its name, read from the field; a valid new name with a 200 answer sends one PUT to that category and calls only `onCategoryUpdated` |
| CategoryFormScenarios.AuthFailureFlow | src/components/category/AddCategoryForm.jsx:61-64 | a 401 calls only `handleAuthError`, in either mode |
| CategoryFormScenarios.FailedUpdateFlow | src/components/category/AddCategoryForm.jsx:66-68 | a 500 without `msg` during an update reports "An unexpected error occurred during update." |
| CategoryFormScenarios.CancelFlow | src/components/category/AddCategoryForm.jsx:36-42 | select, then Cancel, fills and then empties the field; the emptied field is rejected as required, and nothing is sent |

## Left out

- Character classes are ASCII only. JavaScript's `toLowerCase` also maps
  non-ASCII capitals, and two of them (U+0130 and U+212A) map to ASCII
  letters. `\s` also matches Unicode spaces (U+00A0, U+2028, U+FEFF and
  others). The model treats all of these as ordinary characters.
- Lengths are counted in characters. react-hook-form counts UTF-16 code
  units, which differ for characters outside the Basic Multilingual Plane.
- `fetch`, `res.json()` and `JSON.stringify` are not modelled; they are
  network I/O and foreign code. A response is a status with the error body
  as the form reads it (a `msg` that may be absent, or the error thrown
  while reading it), or the error `fetch` threw.
- A `msg` that is present but not a string is not modelled: the body
  carries an optional string.
- An error thrown with an empty or missing message is not modelled: the
  thrown error's `message` is passed to `onError` as given.
- React rendering, the JSX markup, the heading and button labels, and CSS
  (lines 81-131) are presentation only.
- react-hook-form internals are not modelled: `register`, `handleSubmit`,
  and the `errors` and `isSubmitting` bookkeeping. `Form.Submit` only
  captures that the handler runs only on a valid name.
- Duplicate-submit prevention through the disabled button (line 112) is
  not modelled: the UI and the library enforce it around an async call.
  The asynchronous interleaving of a submit with other events is also left
  out; a submit is one atomic step.
- CategoryForm.Form.SetEditingCategory compares targets by value, while
  React reruns the effect when the object's identity changes. A new object
  equal to the current target therefore does not reset the field in the
  model, but it would in the form.
- An `onError` that throws is not modelled: its error escapes the handler
  as a rejected promise, and no further callback runs.
- The parent component's own state is not modelled. `setEditingCategory`
  is taken as setting the `editing` field that the form sees.
- `CatId` is a string in the model. The form only interpolates it into the
  URL, so its type in the backend does not matter here.
