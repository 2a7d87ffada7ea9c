# AI Knowledge Assistant: a Dafny model of its core

The system is a document assistant. A signed-in user keeps text documents and asks questions about them. A LangGraph question-answering graph answers the questions on a Django REST backend. A React single-page client shows the pages.

This project models the parts of the system that decide what happens:

- **Root component** (`App`). It holds the state machine over the six pages: login, register, documents, create, edit and ask-ai. It also keeps the signed-in flag, the theme, the loaded list and the selected document id. Its handlers move between these states, and its render guards decide which page is shown.
- **Token store and request interceptor** (`AuthService`, `Http`, `Storage`). Login stores the JWT access token in `localStorage` under `"token"`, and logout removes it. Each request gets an `Authorization: Bearer …` header exactly when a truthy token is stored.
- **Page controllers** (`LoginPage`, `RegisterPage`, `CreateDocumentPage`, `AskAIPage`, `DashboardPage`). These cover their local state, their client-side checks and the backend call they make. For the dashboard, editor and ask pages they also cover what the page renders from its state. The render of the login and register pages is not modelled.
- **Server side** (`AccountsSerializers`, `AskView`, `DocumentViews`):
  - the sign-up validators, with Python's `re.match` semantics written out;
  - the ask endpoint's 400/404/200 decision;
  - the per-owner document queryset and the owner stamping on create.

### How the model represents asynchronous code and the backend

- **Backend outcomes are parameters.** Every backend call's outcome is a parameter of type `Settled<T>`, either `Resolved(value)` or `Rejected`. The QA graph is an arbitrary function `(content, question) -> answer`.
- **Async handlers are split at the `await`.** Each one has a `Start…` method for the state up to the call, a `Settle…` method for the state after the `try`/`catch`/`finally`, and a method that composes the two.
- **Classes hold mutable state.** Components with mutable state are classes whose fields are the `useState` variables. `App.App.Valid` is the invariant that every handler of the root component preserves:
  - the user is signed in exactly when the page is neither login nor register;
  - nothing is listed or selected while signed out;
  - the edit and ask pages always have an id selected;
  - the create page never has one.

## Model

| member | source | states |
|---|---|---|
| Text.Trim | frontend/src/app/components/CreateDocumentPage.tsx:31 | `trim()` removes only a prefix and a suffix made of ECMAScript whitespace and line terminators. The result is the infix between them, and it neither starts nor ends with such a character. |
| Text.BlankIffAllTrimmable | frontend/src/app/components/CreateDocumentPage.tsx:31 | `!s.trim()` holds exactly when every character of `s` is whitespace or a line terminator. |
| Text.DecimalString | frontend/src/app/components/DashboardPage.tsx:44 | A count is rendered as a non-empty string of digits with no leading zero. |
| Text.DecimalRoundTrip | frontend/src/app/components/DashboardPage.tsx:44 | Reading back the numeral rendered for `n` gives `n`. |
| Text.DecimalStringInjective | frontend/src/app/components/DashboardPage.tsx:44 | Different counts render as different numerals. |
| Storage.Lookup | frontend/src/app/App.tsx:26 | `getItem` reads the stored value, or null exactly when the key is absent. The stored token, `LocalStorage.GetItem` and the interceptor's read all go through this lookup. |
| Storage.LocalStorage.SetItem | frontend/src/services/authService.ts:11 | `setItem` replaces the value under the key and keeps every other key. |
| Storage.LocalStorage.RemoveItem | frontend/src/services/authService.ts:20 | `removeItem` drops the key and keeps every other key. Removing an absent key does nothing. |
| AuthService.AfterLogin | frontend/src/services/authService.ts:9-13 | After a resolved login the stored token is the response's access token. After a rejected login the store is unchanged. No other key changes either way. |
| AuthService.AfterLogout | frontend/src/services/authService.ts:19-21 | After logout no token is stored and every other key is kept. |
| AuthService.Login | frontend/src/services/authService.ts:9-13 | `login` resolves or rejects as the POST does. The store becomes `AfterLogin` of the old store. |
| AuthService.Register | frontend/src/services/authService.ts:15-17 | `register` passes the POST's outcome through and touches no store. |
| AuthService.Logout | frontend/src/services/authService.ts:19-21 | `logout` leaves the store as `AfterLogout` of the old store. |
| AuthService.SecondLoginOverwrites | frontend/src/services/authService.ts:11 | A second successful login replaces the first token. |
| AuthService.RejectedLoginKeepsToken | frontend/src/services/authService.ts:10-11 | A failed login keeps the token of an earlier successful one, because the store is written only after the POST resolves. |
| AuthService.LogoutIdempotent | frontend/src/services/authService.ts:19-21 | Logging out twice leaves the same store as logging out once. With no token stored, logout changes nothing. |
| AuthService.LogoutUndoesLogin | frontend/src/services/authService.ts:9-21 | Logout after login leaves the same store as logout alone. |
| Http.RequestConfig.FromDefaults | frontend/src/api/http.ts:3-9 | A request starts from the base URL `http://127.0.0.1:8000/api/`, with credentials and the JSON content type. |
| Http.WithBearer | frontend/src/api/http.ts:12-18 | With a truthy token the `Authorization` header is `"Bearer " + token`. With a null or empty token the headers are unchanged. No other header changes either way. |
| Http.Intercept | frontend/src/api/http.ts:12-18 | The interceptor returns the same config object. Its headers become `WithBearer` of the old headers and the stored token, and its other fields are unchanged. |
| Http.InterceptIdempotent | frontend/src/api/http.ts:15-16 | Intercepting twice gives the same headers as intercepting once, because the header is assigned rather than appended. |
| Http.HeaderFollowsSession | frontend/src/api/http.ts:12-18 | After a login with a non-empty access token, requests carry that token. After logout they carry no `Authorization` header. |
| Docs.FirstWithId | frontend/src/app/App.tsx:103 | `find` returns nothing exactly when no entry has the id. Otherwise it returns an entry with that id. |
| App.SelectedDocument | frontend/src/app/App.tsx:102-104 | Nothing is selected for a null or zero id, or when no listed document has the id. Otherwise the result is the first listed document with that id. |
| App.ZeroIdNeverSelected | frontend/src/app/App.tsx:102 | Because of the truthiness test, a document with id 0 is never selected. |
| App.Render | frontend/src/app/App.tsx:106-186 | The render guards:<br>- Signed out, the login form shows exactly on `login` and the register form exactly on `register`, and nothing else renders.<br>- Signed in, the sidebar highlights `documents` while editing.<br>- The dashboard and the create page each appear exactly on their own page.<br>- The editor and the ask page appear only with a resolved selected document, which they show. |
| App.BlankOnlyForUnresolvedSelection | frontend/src/app/App.tsx:106-186 | For any sign-in flag and page that agree (signed in exactly off the login and register pages), a form or a main view is shown. The only exception is the edit or ask page with no resolved document. |
| App.ValidStateShowsSomething | frontend/src/app/App.tsx:106-186 | In every state satisfying `App.Valid`, which every handler preserves, the screen shows something. The only exception is the edit or ask page with an id that resolves to no listed document. |
| App.LateBackShowsNothing | frontend/src/app/App.tsx:107-124 | The state a late `onBack` reaches, signed out on the documents page, renders neither form: a blank screen. See "## Left out". |
| App.App.constructor | frontend/src/app/App.tsx:17-22 | The initial state is the login page, signed out, dark theme, no documents, not loading and no selection. |
| App.App.Mount | frontend/src/app/App.tsx:25-31 | A truthy stored token signs the user in on the documents page. A null or empty token changes nothing. |
| App.App.LoadDocuments | frontend/src/app/App.tsx:39-46 | The fetch runs exactly when signed in on the documents page. A resolved fetch replaces the list. Loading ends either way, and the page, sign-in flag and selection are kept. |
| App.App.HandleLogin | frontend/src/app/App.tsx:48-52 | Signed in on the documents page; the list and selection are kept. |
| App.App.HandleRegister | frontend/src/app/App.tsx:54-58 | The same transition as login. |
| App.App.HandleLogout | frontend/src/app/App.tsx:60-67 | The token is removed, the user is signed out on the login page, and the list and selection are cleared. |
| App.App.HandleCreateDocument | frontend/src/app/App.tsx:69-72 | The create page, with no selection. |
| App.App.HandleSelectDocument | frontend/src/app/App.tsx:81-84 | The edit page, with `id` selected. |
| App.App.HandleAskAI | frontend/src/app/App.tsx:86-89 | The ask page, with `id` selected. |
| App.App.HandleNavigate | frontend/src/app/App.tsx:91-98 | `"documents"` and `"create"` go to those pages and clear the selection. Any other string changes nothing. |
| App.App.ToggleTheme | frontend/src/app/App.tsx:100 | Flips the theme and changes nothing else. |
| App.App.ShowRegister | frontend/src/app/App.tsx:113 | The login form's link goes to the register page while signed out. |
| App.App.ShowLogin | frontend/src/app/App.tsx:119 | The register form's link goes back to the login page. |
| App.App.Back | frontend/src/app/App.tsx:154 | The editor's and ask page's back action goes to the documents page and, unlike the sidebar, keeps the selection. It is stated for a signed-in user; see "## Left out" for a late call after logout. |
| App.Launch | frontend/src/app/App.tsx:17-31 | On load the user is signed in on the documents page exactly when a truthy token is stored. Otherwise the user is signed out on the login page. |
| App.SidebarLogout | frontend/src/app/components/Sidebar.tsx:83-86 | The double `logout()` ends with no token stored and the root signed out, with the same store as a single logout. |
| App.SignIn | frontend/src/app/components/LoginPage.tsx:18-31 | A form with an empty field is not submitted: the root, the store, and the form's loading flag and message are unchanged. Otherwise a resolved login stores the access token and signs the root in on the documents page. A rejected one leaves the root's page and sign-in flag, and the store, as they were. For a submitted form, loading ends and the message is cleared on success or set to the invalid-credentials text on rejection. In every case the root's list, selection, theme and loading flag, and the typed fields, are kept. |
| App.SignUp | frontend/src/app/components/RegisterPage.tsx:20-44 | A sign-up signs the root in exactly when the form is filled, passes both checks and the call resolves. Any other sign-up leaves the root's page and sign-in flag unchanged. An unfilled form keeps its loading flag and message. A failed client check sets the message to that check's text without loading. A sent request ends loading, with the message cleared on success or set to the failure text on rejection. In every case the root's list, selection, theme and loading flag, and the three typed fields, are kept. The store is never written, so a store without a token still has none. |
| LoginPage.LoginForm.constructor | frontend/src/app/components/LoginPage.tsx:13-16 | Empty fields, idle, no error. |
| LoginPage.LoginForm.SetUsername | frontend/src/app/components/LoginPage.tsx:60 | The username field takes the typed value; nothing else changes. |
| LoginPage.LoginForm.SetPassword | frontend/src/app/components/LoginPage.tsx:69 | The password field takes the typed value; nothing else changes. |
| LoginPage.LoginForm.Start | frontend/src/app/components/LoginPage.tsx:18-24 | Once the browser's `required` check has passed: the form starts loading and clears the error. The request carries the current fields. |
| LoginPage.LoginForm.Settle | frontend/src/app/components/LoginPage.tsx:24-30 | The root is told of the login exactly when the call resolves. A rejection sets "Invalid username or password". Loading ends either way. |
| LoginPage.LoginForm.Submit | frontend/src/app/components/LoginPage.tsx:18-31 | A form with an empty field is blocked by the `required` inputs (lines 61 and 70): no call is made and nothing changes. Otherwise one call is made with the fields as typed, the error is cleared on success and set on failure, and the store follows `AfterLogin`. The fields are kept either way. |
| RegisterPage.ClientCheck | frontend/src/app/components/RegisterPage.tsx:24-32 | The checks pass exactly when the two passwords are equal and at least 6 long. Mismatch is reported before length. |
| RegisterPage.RegisterForm.constructor | frontend/src/app/components/RegisterPage.tsx:14-18 | Empty fields, idle, empty error. |
| RegisterPage.RegisterForm.SetFields | frontend/src/app/components/RegisterPage.tsx:71-89 | The three fields take the typed values. |
| RegisterPage.RegisterForm.Start | frontend/src/app/components/RegisterPage.tsx:20-34 | A failed check sets its message and makes no call. Otherwise loading starts and the request carries the username and password. |
| RegisterPage.RegisterForm.Settle | frontend/src/app/components/RegisterPage.tsx:36-43 | The root is told exactly when the call resolves. A rejection sets the generic failure message. Loading ends. |
| RegisterPage.RegisterForm.Submit | frontend/src/app/components/RegisterPage.tsx:20-44 | A form with an empty field is blocked by the `required` inputs (lines 72, 81 and 90): nothing changes, including the error. Otherwise a register call happens exactly when both checks pass. The three fields are kept either way. |
| CreateDocumentPage.SaveRequest | frontend/src/app/components/CreateDocumentPage.tsx:30-40 | No call is made when the title or the content is blank. Otherwise the call is an update of the existing document or a create. |
| CreateDocumentPage.SaveDisabled | frontend/src/app/components/CreateDocumentPage.tsx:60-65 | The save buttons are enabled exactly when neither field is blank and no save is pending. The pending flag disables them through the Button's `disabled \|\| isLoading` rule at frontend/src/app/components/Button.tsx:31. |
| CreateDocumentPage.EnabledButtonSaves | frontend/src/app/components/CreateDocumentPage.tsx:30-65 | An enabled button always leads to a backend call. A blank field both disables the button and blocks the call. |
| CreateDocumentPage.EditorForm.constructor | frontend/src/app/components/CreateDocumentPage.tsx:26-28 | The fields start from the edited document, or empty. |
| CreateDocumentPage.EditorForm.SetFields | frontend/src/app/components/CreateDocumentPage.tsx:80-88 | The two fields take the typed values. |
| CreateDocumentPage.EditorForm.StartSave | frontend/src/app/components/CreateDocumentPage.tsx:30-40 | The call made is `SaveRequest` of the current fields. Saving starts only when a call is made. |
| CreateDocumentPage.EditorForm.SettleSave | frontend/src/app/components/CreateDocumentPage.tsx:41-44 | The page goes back exactly when the call resolves, and saving ends either way. |
| CreateDocumentPage.EditorForm.Save | frontend/src/app/components/CreateDocumentPage.tsx:30-45 | There is either no call, or exactly one call followed by the end of saving. |
| AskAIPage.PanelFor | frontend/src/app/components/AskAIPage.tsx:78-124 | The answer card shows exactly when there is an answer or a pending call, and the suggestions show exactly otherwise. The card shows placeholders while loading, otherwise the answer. |
| AskAIPage.AskDisabled | frontend/src/app/components/AskAIPage.tsx:65-71 | The Ask button is enabled exactly when the question is not blank and no call is pending. The pending flag disables it through the Button's `disabled \|\| isLoading` rule at frontend/src/app/components/Button.tsx:31. |
| AskAIPage.AskForm.constructor | frontend/src/app/components/AskAIPage.tsx:20-22 | No question, no answer, idle. |
| AskAIPage.AskForm.SetQuestion | frontend/src/app/components/AskAIPage.tsx:61 | The question field takes the typed value. |
| AskAIPage.AskForm.ChooseSuggestion | frontend/src/app/components/AskAIPage.tsx:108-116 | Clicking a suggestion sets the question to exactly that text. |
| AskAIPage.AskForm.StartAsk | frontend/src/app/components/AskAIPage.tsx:24-31 | No call is made for a blank question. Otherwise the call carries the document id and the question, loading starts and the answer is cleared. |
| AskAIPage.AskForm.SettleAsk | frontend/src/app/components/AskAIPage.tsx:31-35 | A resolved call shows its answer, and loading ends either way. |
| AskAIPage.AskForm.Ask | frontend/src/app/components/AskAIPage.tsx:24-36 | A whole ask keeps the question. A rejected call leaves no answer, so the suggestions come back. |
| DashboardPage.Subtitle | frontend/src/app/components/DashboardPage.tsx:44 | The subtitle is "1 document" for one document and "<n> documents" otherwise. |
| DashboardPage.NumeralThenSpace | frontend/src/app/components/DashboardPage.tsx:44 | The subtitle starts with the count's digits followed by a space. |
| DashboardPage.SubtitleInjective | frontend/src/app/components/DashboardPage.tsx:44 | Different counts give different subtitles. |
| DashboardPage.Preview | frontend/src/app/components/DashboardPage.tsx:101 | The preview is at most the first 120 characters plus "...". The ellipsis is added even to short content. |
| DashboardPage.Card | frontend/src/app/components/DashboardPage.tsx:87-101 | A card carries its document's id and title, and its preview is `Preview` of the content. |
| DashboardPage.MainAreaFor | frontend/src/app/components/DashboardPage.tsx:56-71 | Six skeletons show while loading, the empty state exactly when loaded with no documents, and otherwise one card per document in order. |
| DashboardPage.CardIntent | frontend/src/app/components/DashboardPage.tsx:66-67 | The card body and the Edit button select the document. Ask AI asks about it. Every intent carries the document's id. |
| DashboardPage.Dashboard.constructor | frontend/src/app/components/DashboardPage.tsx:31-32 | The page mounts loading, with an empty list. |
| DashboardPage.Dashboard.SettleFetch | frontend/src/app/components/DashboardPage.tsx:34-38 | A resolved fetch replaces the list, and loading ends either way. |
| DocumentViews.Queryset | backend/documents/views.py:10-12 | Every returned row belongs to the requester, and every row of the requester is returned. |
| DocumentViews.QuerysetAppend | backend/documents/views.py:10-12 | Filtering by owner distributes over concatenation of tables. |
| DocumentViews.DocumentTable.constructor | backend/documents/views.py:14-15 | An empty table whose first key is 1. |
| DocumentViews.DocumentTable.PerformCreate | backend/documents/views.py:14-15 | Exactly one row is appended, owned by the requester, under a fresh key. The requester's queryset grows by that row and every other user's queryset is unchanged. |
| DocumentList.QuerysetKeysIncreasing | backend/documents/views.py:10-12 | Read in table order, the requester's queryset keeps the table's keys positive and increasing, so they are distinct. |
| DocumentList.EveryListedDocumentSelectable | frontend/src/app/App.tsx:102-104 | For a list taken from the requester's queryset in any order (any permutation of its rows), selecting any listed document's id resolves to exactly that document. Its id is never 0, so the truthiness test does not drop it. No other entry has the same id, so the first-match lookup does not confuse it. |
| AskView.Lookup | backend/ai_engine/views.py:22-26 | `get(id=…, owner=user)` finds nothing exactly when no row has both the id and the owner. |
| AskView.LookupWithinQueryset | backend/ai_engine/views.py:22-26 | Looking up by id and owner in the table gives the same result as looking up in the owner's queryset. |
| AskView.Post | backend/ai_engine/views.py:12-42 | The endpoint answers 400 exactly when the id or the question is falsy, 404 exactly when no row of the requester has the id, and otherwise 200 with the graph's answer on that document's content. |
| AskView.AnswerSeesOnlyOwnDocuments | backend/ai_engine/views.py:22-42 | Two tables giving the requester the same queryset give the same response. |
| AskView.BadRequestIgnoresTable | backend/ai_engine/views.py:16-20 | A request with a missing field gets the 400 response whatever the table and graph. |
| AskView.ForeignDocumentNotFound | backend/ai_engine/views.py:22-31 | Asking about another user's document gives 404. |
| AccountsSerializers.UsernamePatternMeaning | accounts/serializers.py:15 | `re.match(r'^[a-zA-Z0-9_]+$', s)` holds exactly when `s`, apart from one final newline, is a non-empty run of word characters. |
| AccountsSerializers.PasswordPatternMeaning | accounts/serializers.py:22-23 | The password pattern holds exactly when `s`, apart from one final newline, is a newline-free string of 8 or more characters with an upper-case letter, a lower-case letter, a digit and one of `@$!%*?&`. |
| AccountsSerializers.ValidateUsername | accounts/serializers.py:12-19 | The username checks run in order: length below 4, then invalid characters, then an existing username. The first failing check's message is raised, and an accepted value is returned unchanged. |
| AccountsSerializers.ValidatePassword | accounts/serializers.py:21-25 | A password is accepted exactly when the pattern's meaning holds. It is returned unchanged, or "Weak password" is raised. |
| AccountsSerializers.UsernameWithoutNewline | accounts/serializers.py:12-19 | For a username without newlines, acceptance means 4 or more word characters and a new name. |
| AccountsSerializers.PasswordWithoutNewline | accounts/serializers.py:21-25 | For a password without newlines, acceptance means 8 or more characters with all four classes. |
| AccountsSerializers.HashIsNotSpecial | accounts/serializers.py:22 | `Passw0rd#` is rejected, because `#` is not among the special characters. |
| AccountsSerializers.TrailingNewlineAccepted | accounts/serializers.py:15-23 | Because of `$`, `abcd\n` and `Passw0rd!\n` are accepted as they are. |
| PasswordRules.ServerRuleImpliesClientRule | accounts/serializers.py:21-25 | Every password the server accepts also passes the sign-up form's checks. |
| PasswordRules.ClientRuleLooserThanServer | frontend/src/app/components/RegisterPage.tsx:29 | `abcdef` passes the form's checks but is rejected by the server as weak. |

## Left out

- **Async effects, toasts and races.**
  - Toast notifications, the theme's DOM class toggle and the `Toaster` theme are not modelled.
  - Locale date formatting on cards is not modelled.
  - Two overlapping requests, and a response that arrives after its component unmounted, are not modelled. Each call settles before the next event.
- **A defect in the source: late responses after logout.** This follows from reading the code; nothing was executed.
  - The editor calls `onBack` after its awaited save (frontend/src/app/components/CreateDocumentPage.tsx:37-41). The sidebar's logout (frontend/src/app/components/Sidebar.tsx:83-86) stays clickable while the save is pending.
  - A save that resolves after a logout therefore sets the page to documents while signed out (frontend/src/app/App.tsx:163). That state breaks `App.Valid`, and frontend/src/app/App.tsx:107-124 renders neither form. `App.LateBackShowsNothing` states the blank screen.
  - Similarly, a list fetch that resolves after logout refills the list while signed out (frontend/src/app/App.tsx:42-43).
  - The model's methods run one event at a time, so they do not reach these states.
- **`handleSaveDocument` in `App.tsx`.** It is not modelled. The editor's props do not include `onSave`, so the editor never calls it; it saves through the document service itself.
- **`App.isLoading`.** It is set and cleared around the fetch but never rendered. The model keeps the flag and `LoadDocuments` collapses the two steps.
- **Unhandled rejections.** A rejected fetch, save or ask leaves its promise rejection unhandled. The model keeps only its effect on state.
- **Wrappers and library code.**
  - The document and AI service wrappers are not modelled; their outcomes are the `Settled` parameters.
  - The LangGraph and LangChain pipeline is not modelled; it is the `qa` function parameter.
  - The generic list, retrieve, update and delete actions of `ModelViewSet` are not modelled, because they are library code. Only `get_queryset` and `perform_create` are.
- **Axios headers.** Axios header names are case-insensitive; the model treats them as plain map keys.
- **Malformed login response.** A login response without `access` would store the string `"undefined"`. The model assumes the field is present.
- **Text encoding.** JavaScript string lengths count UTF-16 code units. The model counts one Dafny `char` as one unit, which is exact for text within the Basic Multilingual Plane. Lone surrogates cannot be represented.
- LoginPage.LoginForm.Settle: a rejected login sets the message "Invalid username or password" (frontend/src/app/components/LoginPage.tsx:27). The page declares and clears it at lines 16 and 21, but its markup never reads it. The register page does render its message (frontend/src/app/components/RegisterPage.tsx:93-97). So a failed sign-in is not reported to the user at all. The model keeps the message in state, as the source does, and models no render for either form.
- DocumentList.QuerysetKeysIncreasing: `Queryset` reads the rows in table order, which is insertion order. `filter(owner=…)` at backend/documents/views.py:12 has no `order_by`, and the model's `Meta.ordering` is not part of this model, so the database promises no order. The lemma states what table order gives. `DocumentList.EveryListedDocumentSelectable` does not rely on it: it holds for the queryset's rows in any order.
- AccountsSerializers.ValidatePassword: `\d` (Text.IsDigit) is limited to the ASCII digits. Python's `\d` on `str` also matches other Unicode decimal digits, so the model rejects some passwords the server accepts.
- AccountsSerializers.ValidateUsername:
  - Existence is exact membership in a set of strings; the database's collation is not modelled.
  - DRF's own field processing before `validate_*` is not modelled. This covers `CharField` whitespace trimming, Django's username validator and the model's unique validator. So the trailing-newline acceptance is a property of the two methods alone.
- AskView.Post:
  - `document_id` is an optional integer. A JSON string or boolean id, which Django would coerce or reject, is not modelled.
  - `question` is an optional string. A non-string JSON value is not modelled. A non-zero number or a non-empty list is truthy in Python, so the view would pass it to the graph.
  - Several rows with the same id are not modelled (`MultipleObjectsReturned`); `Lookup` takes the first match.
  - The `IsAuthenticated` permission check is not modelled: `user` is the already authenticated requester.
- App.App.HandleCreateDocument, App.App.HandleSelectDocument, App.App.HandleAskAI and App.App.HandleNavigate: these require the user to be signed in. They are only reachable from the signed-in view.
- App.App.Back: it requires the user to be signed in. That holds for a click, but not for the editor's call after a save that settles late (see the defect above).
- App.App.ShowRegister and App.App.ShowLogin: these require the user to be signed out. They are only reachable from the sign-in forms.
