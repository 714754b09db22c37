# Autofill decision logic of the `logins` package

This project models, in Dafny, the three pieces of decision logic behind the
browser's experimental autofill service and login detection:

1. **Field classification and fill-response assembly** (`LoginsPlusService`).
   The service walks the view tree of every window. Each window root is walked
   in index order, and each tree is walked in pre-order. Every childless node
   (leaf) is classified into a `NativeAutofillType`. Native autofill hints are
   tried first, then the HTML `ua-autofill-hints` attribute; a leaf that matches
   neither is `Unknown`. Each classified leaf adds fixed candidate values to a
   bucket for its kind. The buckets are then joined in a fixed order into the
   list of datasets. When no dataset was added, there is no response.
2. **Origin-keyed credential store** (`LoginsManager`). This is a map from
   `scheme://domain` to the logins saved for it, in save order. Saving appends.
   An empty login is ignored. Duplicates are kept.
3. **Login-form presence heuristic** (`NativeFormDetector`). A page has a
   login form when its body has an input-like element and a submit-like element.
   A failed download answers `false`.

Modules, one per concept:

- `Optional` (`optional.dfy`): the nullable values of the source.
- `AutofillType` (`autofill_type.dfy`): the kinds, their hint tokens, and the
  first-match search over the declaration order.
- `Classifier` (`classifier.dfy`): view nodes, the HTML hint, and the two-stage
  classification rule.
- `Response` (`response.dfy`): candidates, buckets, and response assembly.
- `Traversal` (`traversal.dfy`): the tree walk, its pre-order reference, and the
  theorems about the response it produces.
- `LoginsManager` (`logins_manager.dfy`): the credential store.
- `NativeFormDetector` (`native_form_detector.dfy`): the form heuristic.

Things outside the model become parameters:

- `Uri.scheme` and `Uri.domain()` are the `UriParser` record of two functions.
  Each may return null, and a string template renders null as `"null"`.
- The downloaded and parsed page is an `Option<Body>`. `None` stands for the
  I/O failure.
- The body is the sequence of its elements in document order, each reduced to
  its tag and its `type` and `role` attributes.

The main theorem is `Traversal.FillRequest`. It says the response equals a
reference built straight from the classified leaves (`ClassifiedField`, a leaf's
id paired with its kind): for each kind, the
candidates of every leaf of that kind in leaf order, with the full-name slot
holding only the last one. The response is absent exactly when every leaf is
`Unknown`.

Behaviour of the code that the model keeps exactly:

- A later full-name leaf overwrites an earlier one, so the last one is kept
  (`LoginsPlusService.kt:109`).
- The origin key is `scheme + "://" + domain()` and has no error path
  (`LoginsManager.kt:68-73`). It is not reduced to a registrable domain.
- A failed download gives `false` rather than an error
  (`NativeFormDetector.kt:31`, `NativeFormDetector.kt:58-63`).

## Model

| member | source | states |
|---|---|---|
| AutofillType.Ordinal | app/src/main/java/com/duckduckgo/app/logins/LoginsPlusService.kt:206-212 | every kind has a position in the declaration order, and the kind at that position is itself |
| AutofillType.NativeHint | app/src/main/java/com/duckduckgo/app/logins/LoginsPlusService.kt:206-212 | every kind except `Unknown` has a non-empty native token, as in the constructor arguments; `HintTableWellFormed` shows only `Unknown` lacks one and no two kinds share one |
| AutofillType.HtmlHint | app/src/main/java/com/duckduckgo/app/logins/LoginsPlusService.kt:206-212 | every kind except `Unknown` has a non-empty HTML token, as in the constructor arguments; `HintTableWellFormed` shows only `Unknown` lacks one and no two kinds share one |
| AutofillType.HintTableWellFormed | app/src/main/java/com/duckduckgo/app/logins/LoginsPlusService.kt:197-212 | exactly the six non-`Unknown` kinds carry native and HTML tokens; no two kinds share a token; no token is empty |
| AutofillType.FirstWhere | app/src/main/java/com/duckduckgo/app/logins/LoginsPlusService.kt:250-252 | `firstOrNull`: nothing only when no element satisfies the predicate; otherwise an element that satisfies it, with none before it satisfying it |
| AutofillType.FirstWhereDeclarationOrder | app/src/main/java/com/duckduckgo/app/logins/LoginsPlusService.kt:259-262 | the search over the declaration order returns the earliest-declared matching kind, and nothing exactly when no kind matches |
| Classifier.FirstAttributeValue | app/src/main/java/com/duckduckgo/app/logins/LoginsPlusService.kt:312 | the value of the first attribute with the given name; nothing when no attribute has that name |
| Classifier.AutofillHint | app/src/main/java/com/duckduckgo/app/logins/LoginsPlusService.kt:303-313 | the hint exists exactly when there is HtmlInfo with an attribute list containing `ua-autofill-hints`, and it is the value of the first such attribute |
| Classifier.DetermineAutofillTypeFromNativeHints | app/src/main/java/com/duckduckgo/app/logins/LoginsPlusService.kt:247-254 | null or empty hints give `Unknown`; `Unknown` exactly when no kind's native token is among the hints; otherwise the earliest-declared kind whose token is among them |
| Classifier.DetermineAutofillTypeFromHtmlHints | app/src/main/java/com/duckduckgo/app/logins/LoginsPlusService.kt:256-263 | a null or empty hint gives `Unknown`; `Unknown` exactly when no kind's HTML token equals the hint; otherwise the kind whose token equals it |
| Classifier.DetermineAutofillType | app/src/main/java/com/duckduckgo/app/logins/LoginsPlusService.kt:237-245 | the result satisfies the two-stage rule `Classifies`: a native token wins, earliest-declared first; else an HTML token; else `Unknown` |
| Classifier.ClassificationIsUnique | app/src/main/java/com/duckduckgo/app/logins/LoginsPlusService.kt:237-263 | the two-stage rule allows at most one kind per node, so the classification contract determines the result |
| Classifier.NativeHintPrecedence | app/src/main/java/com/duckduckgo/app/logins/LoginsPlusService.kt:237-239 | when the native hints hold any kind's token, the result is a native match declared no later than that kind, and no HtmlInfo can change it |
| Classifier.HtmlHintFallback | app/src/main/java/com/duckduckgo/app/logins/LoginsPlusService.kt:240-244 | without a native token the HTML hint alone decides, and a missing HTML hint gives `Unknown` |
| Classifier.NativeBeatsHtmlExample | app/src/main/java/com/duckduckgo/app/logins/LoginsPlusService.kt:237-239 | native `cc-number` with HTML `NAME_FULL` classifies as `CreditCardNumber` |
| Classifier.DeclarationOrderBreaksTiesExample | app/src/main/java/com/duckduckgo/app/logins/LoginsPlusService.kt:250-252 | native hints `email`, `name`, `cc-exp` classify as `CreditCardExpiry`: declaration order decides, not the order of the hints |
| Classifier.NoHintsIsUnknown | app/src/main/java/com/duckduckgo/app/logins/LoginsPlusService.kt:247-257 | null or empty native hints, with no HTML attributes, give `Unknown` |
| Response.ResponsesFor | app/src/main/java/com/duckduckgo/app/logins/LoginsPlusService.kt:107-123 | a leaf yields no candidate when `Unknown`, two when an email (work then personal), one otherwise; every candidate fills that leaf with a value of that kind; the full-name label is its value |
| Response.SimpleResponse | app/src/main/java/com/duckduckgo/app/logins/LoginsPlusService.kt:133-135 | a candidate for a node and value whose label defaults to the value; `ResponsesFor` states the full-name label equals its value |
| Response.AddAutofillResponseForNode | app/src/main/java/com/duckduckgo/app/logins/LoginsPlusService.kt:102-125 | `Unknown` changes nothing; a full-name leaf overwrites the single slot; any other kind appends its candidates to its own list and leaves every other list alone |
| Response.BuildFillResponse | app/src/main/java/com/duckduckgo/app/logins/LoginsPlusService.kt:215-227 | no response exactly when every bucket is empty; otherwise a non-empty list of email, card number, full name, expiry, security code and telephone candidates, in that order |
| Traversal.TraverseView | app/src/main/java/com/duckduckgo/app/logins/LoginsPlusService.kt:79-92 | the recursive walk: a childless node is classified and recorded, then the children in index order; `TraverseViewRecordsLeaves` states it records the pre-order leaves |
| Traversal.LeavesArePreorderLeaves | app/src/main/java/com/duckduckgo/app/logins/LoginsPlusService.kt:84-91 | the nodes the walk classifies are exactly the childless nodes of the tree's pre-order, in pre-order |
| Traversal.TraverseViewRecordsLeaves | app/src/main/java/com/duckduckgo/app/logins/LoginsPlusService.kt:79-92 | walking a tree classifies and records its leaves one by one in pre-order; a leaf is checked before the children are walked in index order |
| Traversal.RecordAppend | app/src/main/java/com/duckduckgo/app/logins/LoginsPlusService.kt:70-73 | recording two field sequences one after the other into the same buckets is recording their concatenation |
| Traversal.ParseStructure | app/src/main/java/com/duckduckgo/app/logins/LoginsPlusService.kt:67-77 | the buckets after walking the windows in index order hold the records of all their leaves, window by window |
| Traversal.ClassifyPointwise | app/src/main/java/com/duckduckgo/app/logins/LoginsPlusService.kt:84-86 | the i-th classified field is the i-th leaf's id paired with the kind the two-stage rule gives that leaf |
| Traversal.RecordBucket | app/src/main/java/com/duckduckgo/app/logins/LoginsPlusService.kt:110-123 | after recording fields, each list bucket is the old bucket followed by the candidates of every field of its kind, in field order |
| Traversal.RecordFullName | app/src/main/java/com/duckduckgo/app/logins/LoginsPlusService.kt:97-109 | after recording fields, the full-name slot holds the last full-name candidate, or its old value when there was none |
| Traversal.AssembleRecord | app/src/main/java/com/duckduckgo/app/logins/LoginsPlusService.kt:215-227 | the assembled datasets equal the reference built from the classified fields, and nothing was collected exactly when the reference is empty |
| Traversal.FillRequest | app/src/main/java/com/duckduckgo/app/logins/LoginsPlusService.kt:59-64 | the response equals the per-kind reference built from the classified leaves of all windows, and is absent exactly when every leaf is `Unknown` |
| Traversal.NothingCollectedIffAllUnknown | app/src/main/java/com/duckduckgo/app/logins/LoginsPlusService.kt:107-124 | the reference datasets are empty exactly when every field is `Unknown` |
| Traversal.ResponseCounts | app/src/main/java/com/duckduckgo/app/logins/LoginsPlusService.kt:107-123 | a kind's bucket holds twice the number of its fields for email, as many candidates as fields for any other kind, and none for `Unknown` |
| Traversal.KindResponsesFromFields | app/src/main/java/com/duckduckgo/app/logins/LoginsPlusService.kt:107-124 | every candidate in a kind's bucket fills some field classified as that kind, and carries a value of that kind |
| Traversal.DatasetsComeFromClassifiedFields | app/src/main/java/com/duckduckgo/app/logins/LoginsPlusService.kt:219-224 | every dataset fills a field whose kind is the kind of the dataset's value, and no dataset is for `Unknown` |
| Traversal.LastFullNameWins | app/src/main/java/com/duckduckgo/app/logins/LoginsPlusService.kt:109 | the full-name slot holds the candidate of the last full-name field, labelled with its own value |
| Traversal.NoFullNameKeepsSlot | app/src/main/java/com/duckduckgo/app/logins/LoginsPlusService.kt:107-124 | fields of other kinds never touch the full-name slot |
| LoginsManager.DetermineOrigin | app/src/main/java/com/duckduckgo/app/logins/LoginsManager.kt:68-73 | the key is the scheme, then `://`, then the domain, with null rendered as `null` |
| LoginsManager.SameSchemeAndDomainSameOrigin | app/src/main/java/com/duckduckgo/app/logins/LoginsManager.kt:68-73 | URLs with equal scheme and domain share a key, whatever else differs |
| LoginsManager.SameSchemeKeysAgreeIffDomainsAgree | app/src/main/java/com/duckduckgo/app/logins/LoginsManager.kt:68-73 | with equal schemes, two URLs share a key exactly when their rendered domains are equal |
| LoginsManager.NullDomainCollidesWithLiteralNull | app/src/main/java/com/duckduckgo/app/logins/LoginsManager.kt:72 | a URL with a null domain gets the same key, and so sees the same logins, as one whose domain is the text `null` |
| LoginsManager.GetCredentials | app/src/main/java/com/duckduckgo/app/logins/LoginsManager.kt:35-47 | an unknown key gives the empty list; a known key gives its list, an empty one included |
| LoginsManager.IsEmptyLogin | app/src/main/java/com/duckduckgo/app/logins/LoginsManager.kt:51 | the save guard: an empty username with a null or empty password; `SaveCredentials` and `PartialLoginsAreStored` state its effect |
| LoginsManager.SaveCredentials | app/src/main/java/com/duckduckgo/app/logins/LoginsManager.kt:49-66 | an empty login leaves the store unchanged; any other save adds the login after the key's existing entries and leaves every other key unchanged |
| LoginsManager.SavePreservesValid | app/src/main/java/com/duckduckgo/app/logins/LoginsManager.kt:49-66 | the empty store is valid, and saving keeps every stored list non-empty and free of empty logins |
| LoginsManager.GetEmptyIffNoKey | app/src/main/java/com/duckduckgo/app/logins/LoginsManager.kt:40-44 | in a valid store a lookup is empty exactly when nothing was stored under the URL's key |
| LoginsManager.GetAfterSave | app/src/main/java/com/duckduckgo/app/logins/LoginsManager.kt:38-64 | after a save, another lookup sees the new login at the end exactly when the keys agree and the login passed the guard |
| LoginsManager.SaveTwiceKeepsDuplicates | app/src/main/java/com/duckduckgo/app/logins/LoginsManager.kt:60-64 | saving the same login twice leaves two equal trailing entries |
| LoginsManager.PartialLoginsAreStored | app/src/main/java/com/duckduckgo/app/logins/LoginsManager.kt:51 | a password-only login and a username-only login with a null password both pass the guard and are stored |
| NativeFormDetector.MatchesInputTypeSelector | app/src/main/java/com/duckduckgo/app/logins/NativeFormDetector.kt:68-69 | an `input` whose type is not submit, button, checkbox, radio, hidden or file (an untyped one included), or any `select`; `FormExamples` exercises it |
| NativeFormDetector.MatchesSubmitButtonSelector | app/src/main/java/com/duckduckgo/app/logins/NativeFormDetector.kt:70-71 | a submit or button `input`, a `button` whose role is neither switch nor link, or any element with role button; `FormExamples` exercises it |
| NativeFormDetector.Select | app/src/main/java/com/duckduckgo/app/logins/NativeFormDetector.kt:40-41 | the selection holds exactly the body elements that match the selector |
| NativeFormDetector.HtmlContainsForm | app/src/main/java/com/duckduckgo/app/logins/NativeFormDetector.kt:37-54 | true exactly when some element matches the input selector and some element matches the submit selector |
| NativeFormDetector.ContainsLoginForm | app/src/main/java/com/duckduckgo/app/logins/NativeFormDetector.kt:29-35 | a failed download gives `false`; otherwise the body's answer |
| NativeFormDetector.AddingElementsKeepsForm | app/src/main/java/com/duckduckgo/app/logins/NativeFormDetector.kt:40-42 | adding elements to a body never turns `true` into `false` |
| NativeFormDetector.FormExamples | app/src/main/java/com/duckduckgo/app/logins/NativeFormDetector.kt:68-71 | a lone hidden or submit input is no form; a text input with a plain button, or an untyped input with a submit input, is |

## Left out

- Android plumbing of the service is not modelled: `onFillRequest` beyond walking and building, `onSaveRequest`, the `FillResponse`/`Dataset` builders, `RemoteViews` presentation, inline suggestions, and the logging helpers. The response is the ordered list of candidates the builder would receive.
- `analyseLeafNode` only logs around `determineAutofillType`, so the walk calls the classification directly.
- The `SDK_INT < O` branch of the HTML-hint lookup is not modelled. The service only runs on O and later, so that branch is dead.
- `autofillId!!` is not modelled as a crash. Every node is given an id; the platform supplies one for every node of an autofill structure.
- `Uri.domain()` and `toUri()` are defined outside the core files, so scheme and domain are opaque function parameters. No registrable-domain or subdomain property is claimed.
- The store's thread safety is not modelled. It is a concurrency concern that the code does not handle.
- The network fetch, the 1000 ms timeout, and HTML parsing are not modelled; the body arrives already parsed.
- Jsoup's matching rules are not modelled: lower-casing of tag names and case-insensitive attribute values. Tags and attribute values are compared exactly.
- Classifier.DetermineAutofillTypeFromNativeHints: "earliest-declared" rests on the declaration order of the kinds. The source searches Kotlin's reflective `nestedClasses`, whose order the language does not guarantee. The same holds for `DetermineAutofillTypeFromHtmlHints`, although there at most one kind can match.
- Only the structure of the last fill context is walked (`LoginsPlusService.kt:59-60`). `Traversal.FillRequest` takes that structure's window roots directly.
- Logging (`Timber`) is not modelled. It does not affect any result.
