/**
 * The root component (frontend/src/app/App.tsx): which page is shown,
 * whether the user counts as signed in, the theme, the loaded document list
 * and the selected document id, together with the handlers the pages call
 * and the guards that decide what is rendered.
 */
module App {
  import opened Wrappers
  import opened Storage
  import opened Docs
  import AuthService
  import LoginPage
  import RegisterPage

  datatype Page = Login | Register | Documents | Create | Edit | AskAi

  /** The form shown while signed out. */
  datatype AuthForm = LoginShown | RegisterShown

  /** The page shown beside the sidebar while signed in. */
  datatype MainView = DashboardView | CreateView | EditView(existing: Document) | AskView(document: Document)

  /**
   * What the root renders: signed out, at most one of the two forms (and
   * nothing else); signed in, the sidebar with its highlighted page and at
   * most one main view.
   */
  datatype Screen =
    | SignedOutScreen(form: Option<AuthForm>)
    | SignedInScreen(sidebarPage: Page, view: Option<MainView>)

  /**
   * `selectedDocument`: the first listed document whose id equals the
   * selected id; nothing when no id is selected, when the id is 0 (the
   * truthiness test), or when no listed document has it.
   */
  function SelectedDocument(documents: seq<Document>, selectedId: Option<int>): (r: Option<Document>)
    ensures selectedId.None? || selectedId == Some(0) ==> r.None?
    ensures r.Some? ==> selectedId == Some(r.value.id)
    ensures r.Some? ==> exists i :: 0 <= i < |documents| && documents[i] == r.value
                          && forall j :: 0 <= j < i ==> documents[j].id != r.value.id
    ensures selectedId.Some? && selectedId.value != 0 ==>
              (r.None? <==> forall i :: 0 <= i < |documents| ==> documents[i].id != selectedId.value)
  {
    if selectedId.Some? && selectedId.value != 0 then FirstWithId(documents, selectedId.value) else None
  }

  /** A document with id 0 is never selected, even when it is in the list. */
  lemma ZeroIdNeverSelected(documents: seq<Document>)
    ensures SelectedDocument(documents, Some(0)).None?
  {
  }

  /**
   * The render guards: signed out, only the login or register form can
   * appear; signed in, the editor for an existing document and the ask
   * page appear only for a selected document that resolves.
   */
  function Render(isAuthenticated: bool, page: Page, selected: Option<Document>): (s: Screen)
    ensures s.SignedOutScreen? <==> !isAuthenticated
    ensures s.SignedOutScreen? ==> (s.form == Some(LoginShown) <==> page == Login)
                                   && (s.form == Some(RegisterShown) <==> page == Register)
    ensures s.SignedInScreen? ==> s.sidebarPage == (if page == Edit then Documents else page)
    ensures s.SignedInScreen? ==> (s.view == Some(DashboardView) <==> page == Documents)
                                  && (s.view == Some(CreateView) <==> page == Create)
    ensures s.SignedInScreen? && s.view.Some? && s.view.value.EditView? ==>
              page == Edit && selected == Some(s.view.value.existing)
    ensures s.SignedInScreen? && s.view.Some? && s.view.value.AskView? ==>
              page == AskAi && selected == Some(s.view.value.document)
    ensures s.SignedInScreen? && page in {Edit, AskAi} ==> (s.view.None? <==> selected.None?)
  {
    if !isAuthenticated then
      SignedOutScreen(if page == Login then Some(LoginShown)
                      else if page == Register then Some(RegisterShown)
                      else None)
    else
      var view :=
        match page
        case Documents => Some(DashboardView)
        case Create => Some(CreateView)
        case Edit => if selected.Some? then Some(EditView(selected.value)) else None
        case AskAi => if selected.Some? then Some(AskView(selected.value)) else None
        case _ => None;
      SignedInScreen(if page == Edit then Documents else page, view)
  }

  /** Neither a form nor a main view is rendered. */
  predicate ShowsNothing(s: Screen) {
    match s
    case SignedOutScreen(form) => form.None?
    case SignedInScreen(_, view) => view.None?
  }

  /**
   * Under the app's invariant every state shows a form or a main view,
   * except a detail page whose selected document does not resolve.
   */
  lemma BlankOnlyForUnresolvedSelection(isAuthenticated: bool, page: Page, selected: Option<Document>)
    requires isAuthenticated <==> page !in {Login, Register}
    ensures ShowsNothing(Render(isAuthenticated, page, selected)) <==> page in {Edit, AskAi} && selected.None?
  {
  }

  /**
   * The editor calls `onBack` once its awaited save resolves, and the
   * sidebar's logout stays clickable meanwhile. A save that resolves after
   * a logout leaves the root signed out on the documents page, outside
   * the invariant Valid, and that state renders neither form: the screen
   * stays blank until a reload.
   */
  lemma LateBackShowsNothing(selected: Option<Document>)
    ensures ShowsNothing(Render(false, Documents, selected))
  {
  }

  class App {
    var currentPage: Page
    var isAuthenticated: bool
    var isDarkMode: bool
    var documents: seq<Document>
    var isLoading: bool
    var selectedDocumentId: Option<int>

    /**
     * The states the handlers can reach: signed in exactly when not on a
     * sign-in page; nothing listed or selected while signed out; a detail
     * page always has an id selected, the create page never.
     */
    ghost predicate Valid()
      reads this
    {
      && (isAuthenticated <==> currentPage !in {Login, Register})
      && (!isAuthenticated ==> documents == [] && selectedDocumentId.None?)
      && (currentPage in {Edit, AskAi} ==> selectedDocumentId.Some?)
      && (currentPage == Create ==> selectedDocumentId.None?)
    }

    /** The initial state: the login page, signed out, dark theme, nothing listed or selected. */
    constructor ()
      ensures Valid()
      ensures currentPage == Login && !isAuthenticated && isDarkMode
      ensures documents == [] && !isLoading && selectedDocumentId.None?
    {
      currentPage, isAuthenticated, isDarkMode := Login, false, true;
      documents, isLoading, selectedDocumentId := [], false, None;
    }

    /** The selected document as the render sees it. */
    function Selected(): Option<Document>
      reads this
    {
      SelectedDocument(documents, selectedDocumentId)
    }

    /** What is rendered in the current state. */
    function Screen(): Screen
      reads this
    {
      Render(isAuthenticated, currentPage, Selected())
    }

    /**
     * The mount effect: a truthy stored token (not null, not "") signs the
     * user in on the documents page; otherwise nothing changes.
     */
    method Mount(store: LocalStorage)
      requires Valid()
      modifies this
      ensures Valid()
      ensures TruthyString(AuthService.StoredToken(store.items)) ==>
                isAuthenticated && currentPage == Documents
      ensures !TruthyString(AuthService.StoredToken(store.items)) ==>
                isAuthenticated == old(isAuthenticated) && currentPage == old(currentPage)
      ensures documents == old(documents) && selectedDocumentId == old(selectedDocumentId)
      ensures isDarkMode == old(isDarkMode) && isLoading == old(isLoading)
    {
      var token := store.GetItem(AuthService.TokenKey);
      if token.Some? && token.value != "" {
        isAuthenticated := true;
        currentPage := Documents;
      }
    }

    /** The list-fetch effect's condition: signed in and on the documents page. */
    predicate ShouldFetch()
      reads this
    {
      isAuthenticated && currentPage == Documents
    }

    /**
     * The list-fetch effect, its call settling with `reply`: it runs only
     * when ShouldFetch holds; a resolved fetch replaces the whole list, and
     * loading ends either way.
     */
    method LoadDocuments(reply: Settled<seq<Document>>) returns (fetched: bool)
      requires Valid()
      modifies this
      ensures Valid()
      ensures fetched == old(ShouldFetch())
      ensures fetched ==> !isLoading
      ensures fetched && reply.Resolved? ==> documents == reply.value
      ensures !fetched || reply.Rejected? ==> documents == old(documents)
      ensures !fetched ==> isLoading == old(isLoading)
      ensures currentPage == old(currentPage) && isAuthenticated == old(isAuthenticated)
      ensures selectedDocumentId == old(selectedDocumentId) && isDarkMode == old(isDarkMode)
    {
      fetched := isAuthenticated && currentPage == Documents;
      if fetched {
        isLoading := true;
        if reply.Resolved? {
          documents := reply.value;
        }
        isLoading := false;
      }
    }

    /** `handleLogin`: signed in, on the documents page; the list and selection are untouched. */
    method HandleLogin()
      requires Valid()
      modifies this
      ensures Valid()
      ensures isAuthenticated && currentPage == Documents
      ensures documents == old(documents) && selectedDocumentId == old(selectedDocumentId)
      ensures isDarkMode == old(isDarkMode) && isLoading == old(isLoading)
    {
      isAuthenticated := true;
      currentPage := Documents;
    }

    /**
     * `handleRegister`: the same transition as `handleLogin`. It is given
     * no store, so it marks the user signed in without a token being stored.
     */
    method HandleRegister()
      requires Valid()
      modifies this
      ensures Valid()
      ensures isAuthenticated && currentPage == Documents
      ensures documents == old(documents) && selectedDocumentId == old(selectedDocumentId)
      ensures isDarkMode == old(isDarkMode) && isLoading == old(isLoading)
    {
      isAuthenticated := true;
      currentPage := Documents;
    }

    /** `handleLogout`, from any state: the token is removed and the session state cleared. */
    method HandleLogout(store: LocalStorage)
      requires Valid()
      modifies this, store
      ensures Valid()
      ensures store.items == AuthService.AfterLogout(old(store.items))
      ensures !isAuthenticated && currentPage == Login
      ensures documents == [] && selectedDocumentId.None?
      ensures isDarkMode == old(isDarkMode) && isLoading == old(isLoading)
    {
      AuthService.Logout(store);
      isAuthenticated := false;
      currentPage := Login;
      documents := [];
      selectedDocumentId := None;
    }

    /** `handleCreateDocument`: the create page, with no selection. */
    method HandleCreateDocument()
      requires Valid() && isAuthenticated
      modifies this
      ensures Valid()
      ensures currentPage == Create && selectedDocumentId.None?
      ensures isAuthenticated && documents == old(documents)
      ensures isDarkMode == old(isDarkMode) && isLoading == old(isLoading)
    {
      currentPage := Create;
      selectedDocumentId := None;
    }

    /** `handleSelectDocument(id)`: the editor for document `id`. */
    method HandleSelectDocument(id: int)
      requires Valid() && isAuthenticated
      modifies this
      ensures Valid()
      ensures currentPage == Edit && selectedDocumentId == Some(id)
      ensures isAuthenticated && documents == old(documents)
      ensures isDarkMode == old(isDarkMode) && isLoading == old(isLoading)
    {
      selectedDocumentId := Some(id);
      currentPage := Edit;
    }

    /** `handleAskAI(id)`: the ask page for document `id`. */
    method HandleAskAI(id: int)
      requires Valid() && isAuthenticated
      modifies this
      ensures Valid()
      ensures currentPage == AskAi && selectedDocumentId == Some(id)
      ensures isAuthenticated && documents == old(documents)
      ensures isDarkMode == old(isDarkMode) && isLoading == old(isLoading)
    {
      selectedDocumentId := Some(id);
      currentPage := AskAi;
    }

    /**
     * `handleNavigate(page)`, the sidebar's handler: "documents" and
     * "create" go to those pages and clear the selection; any other
     * string changes nothing.
     */
    method HandleNavigate(page: string)
      requires Valid() && isAuthenticated
      modifies this
      ensures Valid()
      ensures page == "documents" ==> currentPage == Documents && selectedDocumentId.None?
      ensures page == "create" ==> currentPage == Create && selectedDocumentId.None?
      ensures page != "documents" && page != "create" ==>
                currentPage == old(currentPage) && selectedDocumentId == old(selectedDocumentId)
      ensures isAuthenticated && documents == old(documents)
      ensures isDarkMode == old(isDarkMode) && isLoading == old(isLoading)
    {
      if page == "documents" {
        currentPage := Documents;
        selectedDocumentId := None;
      } else if page == "create" {
        HandleCreateDocument();
      }
    }

    /** `toggleTheme`: flips the theme and nothing else. */
    method ToggleTheme()
      requires Valid()
      modifies this
      ensures Valid()
      ensures isDarkMode == !old(isDarkMode)
      ensures currentPage == old(currentPage) && isAuthenticated == old(isAuthenticated)
      ensures documents == old(documents) && selectedDocumentId == old(selectedDocumentId)
      ensures isLoading == old(isLoading)
    {
      isDarkMode := !isDarkMode;
    }

    /** The login form's link to the register form. */
    method ShowRegister()
      requires Valid() && !isAuthenticated
      modifies this
      ensures Valid()
      ensures currentPage == Register && !isAuthenticated
      ensures documents == old(documents) && selectedDocumentId == old(selectedDocumentId)
      ensures isDarkMode == old(isDarkMode) && isLoading == old(isLoading)
    {
      currentPage := Register;
    }

    /** The register form's link back to the login form. */
    method ShowLogin()
      requires Valid() && !isAuthenticated
      modifies this
      ensures Valid()
      ensures currentPage == Login && !isAuthenticated
      ensures documents == old(documents) && selectedDocumentId == old(selectedDocumentId)
      ensures isDarkMode == old(isDarkMode) && isLoading == old(isLoading)
    {
      currentPage := Login;
    }

    /**
     * The `onBack` of the editor and the ask page: back to the documents
     * page. Unlike navigating there from the sidebar, it keeps the selection.
     */
    method Back()
      requires Valid() && isAuthenticated
      modifies this
      ensures Valid()
      ensures currentPage == Documents && selectedDocumentId == old(selectedDocumentId)
      ensures isAuthenticated && documents == old(documents)
      ensures isDarkMode == old(isDarkMode) && isLoading == old(isLoading)
    {
      currentPage := Documents;
    }
  }

  /**
   * In every state the handlers reach, the root shows a form or a main
   * view, except on a detail page whose selected id resolves to no listed
   * document.
   */
  lemma ValidStateShowsSomething(app: App)
    requires app.Valid()
    ensures ShowsNothing(app.Screen()) <==> app.currentPage in {Edit, AskAi} && app.Selected().None?
  {
    BlankOnlyForUnresolvedSelection(app.isAuthenticated, app.currentPage, app.Selected());
  }

  /**
   * Loading the app: the initial state, then the mount effect against the
   * token left in storage. Without a truthy token the user starts signed
   * out on the login page; with one, signed in on the documents page.
   */
  method Launch(store: LocalStorage) returns (app: App)
    ensures fresh(app) && app.Valid()
    ensures TruthyString(AuthService.StoredToken(store.items)) ==>
              app.isAuthenticated && app.currentPage == Documents
    ensures !TruthyString(AuthService.StoredToken(store.items)) ==>
              !app.isAuthenticated && app.currentPage == Login
    ensures app.isDarkMode && app.documents == [] && app.selectedDocumentId.None? && !app.isLoading
  {
    app := new App();
    app.Mount(store);
  }

  /**
   * The sidebar's logout button: it calls `logout()` itself and then the
   * root's `handleLogout`, which calls it again; the second removal is
   * harmless and the token ends absent.
   */
  method SidebarLogout(app: App, store: LocalStorage)
    requires app.Valid()
    modifies app, store
    ensures app.Valid()
    ensures store.items == AuthService.AfterLogout(old(store.items))
    ensures AuthService.StoredToken(store.items).None?
    ensures !app.isAuthenticated && app.currentPage == Login
    ensures app.documents == [] && app.selectedDocumentId.None?
  {
    AuthService.Logout(store);
    app.HandleLogout(store);
    AuthService.LogoutIdempotent(old(store.items));
  }

  /** The root's list, selection, theme and loading flag are those of the old state. */
  twostate predicate RootDataKept(app: App)
    reads app
  {
    && app.documents == old(app.documents) && app.selectedDocumentId == old(app.selectedDocumentId)
    && app.isDarkMode == old(app.isDarkMode) && app.isLoading == old(app.isLoading)
  }

  /** The root's page and sign-in flag, and everything `RootDataKept` names, are those of the old state. */
  twostate predicate RootUnchanged(app: App)
    reads app
  {
    && app.isAuthenticated == old(app.isAuthenticated) && app.currentPage == old(app.currentPage)
    && RootDataKept(app)
  }

  /**
   * The login form wired to the root. A form with an empty field is not
   * submitted and nothing changes. Otherwise a login call whose reply
   * resolves stores the token and signs the user in on the documents
   * page; one whose reply rejects leaves the root and the store as they were.
   */
  method SignIn(app: App, form: LoginPage.LoginForm, store: LocalStorage,
                reply: Settled<AuthService.TokenPair>)
    requires app.Valid()
    modifies app, form, store
    ensures app.Valid()
    ensures !old(form.Filled()) ==> RootUnchanged(app) && store.items == old(store.items)
    ensures old(form.Filled()) ==> store.items == AuthService.AfterLogin(old(store.items), reply)
    ensures old(form.Filled()) && reply.Resolved? ==>
              app.isAuthenticated && app.currentPage == Documents
              && AuthService.StoredToken(store.items) == Some(reply.value.access)
    ensures reply.Rejected? ==> RootUnchanged(app) && store.items == old(store.items)
    ensures RootDataKept(app)
    ensures form.username == old(form.username) && form.password == old(form.password)
    ensures !old(form.Filled()) ==> form.isLoading == old(form.isLoading) && form.error == old(form.error)
    ensures old(form.Filled()) ==>
              !form.isLoading && form.error == (if reply.Resolved? then None else Some(LoginPage.InvalidCredentials))
  {
    var request, loggedIn := form.Submit(store, reply);
    if loggedIn {
      app.HandleLogin();
    }
  }

  /** The form as it stands passes the `required` check and both form checks, and the call resolves. */
  predicate SignUpSucceeds(form: RegisterPage.RegisterForm, reply: Settled<AuthService.Account>)
    reads form
  {
    SignUpChecked(form) && reply.Resolved?
  }

  /** The form as it stands passes the `required` check and both form checks, so the register call is made. */
  predicate SignUpChecked(form: RegisterPage.RegisterForm)
    reads form
  {
    form.Filled() && RegisterPage.ClientCheck(form.password, form.confirmPassword).None?
  }

  /**
   * The register form wired to the root. A submit that passes the
   * `required` check and both form checks, and whose register call
   * resolves, signs the user in although no token is stored. Any other
   * submit leaves the root as it was. The store is never written.
   */
  method SignUp(app: App, form: RegisterPage.RegisterForm, store: LocalStorage,
                reply: Settled<AuthService.Account>)
    requires app.Valid()
    modifies app, form
    ensures app.Valid()
    ensures store.items == old(store.items)
    ensures old(SignUpSucceeds(form, reply)) ==> app.isAuthenticated && app.currentPage == Documents
    ensures !old(SignUpSucceeds(form, reply)) ==> RootUnchanged(app)
    ensures AuthService.StoredToken(old(store.items)).None? ==> AuthService.StoredToken(store.items).None?
    ensures RootDataKept(app)
    ensures form.username == old(form.username) && form.password == old(form.password)
    ensures form.confirmPassword == old(form.confirmPassword)
    ensures !old(form.Filled()) ==> form.isLoading == old(form.isLoading) && form.error == old(form.error)
    ensures old(form.Filled()) && old(RegisterPage.ClientCheck(form.password, form.confirmPassword)).Some? ==>
              form.isLoading == old(form.isLoading)
              && form.error == old(RegisterPage.ClientCheck(form.password, form.confirmPassword)).value
    ensures old(SignUpChecked(form)) ==>
              !form.isLoading && form.error == (if reply.Resolved? then "" else RegisterPage.RegisterFailed)
  {
    var request, registered := form.Submit(reply);
    if registered {
      app.HandleRegister();
    }
  }
}
