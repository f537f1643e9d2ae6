/** The page's state controller (brsr-frontend/src/App.js): seven state
    fields changed by the handlers for the health check, the document load,
    start-up, upload, search, retry, dismissing the error and choosing a
    tab. Each handler runs as one step; what the back end answers is a
    parameter. A log of the requests sent, with the loading flag and error
    at the moment of sending, records what the handlers ask of the back
    end. */
module App {
  import opened Wrappers
  import opened Text
  import opened FileUpload

  datatype Tab = UploadTab | DocumentsTab | SearchTab

  datatype ApiStatus = Checking | Connected | Disconnected

  /** A parsed reply body: an array of items, each kept as its JSON text, or
      any other JSON value. */
  datatype Payload = JsonArray(items: seq<string>) | NotArray

  /** The outcome of an apiService call: the parsed body, or the message of
      the error it threw. */
  datatype Reply = Ok(payload: Payload) | Err(message: string)

  datatype Request = GetHealth | GetDocuments
                   | UploadPdf(file: SelectedFile, companyName: string, reportingYear: string)
                   | SearchDocuments(query: string)

  /** A request as it was sent: with the loading flag and error shown then. */
  datatype Call = Call(request: Request, loading: bool, error: Option<string>)

  const BackendUnavailable := "Backend server is not available. Please start the FastAPI server."
  const LoadFailed := "Failed to load documents. Please try again."

  datatype AppState = AppState(activeTab: Tab, documents: seq<string>, searchResults: seq<string>,
                               isLoading: bool, searchQuery: string, error: Option<string>,
                               apiStatus: ApiStatus, calls: seq<Call>)

  /** The state before any handler has run. */
  function Initial(): AppState {
    AppState(UploadTab, [], [], false, "", None, Checking, [])
  }

  /** `Array.isArray(x) ? x : []`. */
  function ItemsOf(p: Payload): seq<string> {
    if p.JsonArray? then p.items else []
  }

  /** Records a request sent in state s. */
  function Sent(s: AppState, request: Request): AppState {
    s.(calls := s.calls + [Call(request, s.isLoading, s.error)])
  }

  /** checkApiHealth: a healthy back end sets 'connected' and clears the
      error; a failure sets 'disconnected' and the fixed message. Nothing
      else changes. */
  function HealthCheck(s: AppState, reply: Reply): (r: AppState)
    ensures r.calls == s.calls + [Call(GetHealth, s.isLoading, s.error)]
    ensures reply.Ok? ==> r.apiStatus == Connected && r.error == None
    ensures reply.Err? ==> r.apiStatus == Disconnected && r.error == Some(BackendUnavailable)
    ensures r == s.(apiStatus := r.apiStatus, error := r.error, calls := r.calls)
  {
    var sent := Sent(s, GetHealth);
    if reply.Ok? then sent.(apiStatus := Connected, error := None)
    else sent.(apiStatus := Disconnected, error := Some(BackendUnavailable))
  }

  /** loadDocuments: the error is cleared before the request; the reply's
      array becomes the documents (anything else gives none); a failure
      empties the documents and sets the fixed message. Nothing else
      changes. */
  function DocumentLoad(s: AppState, reply: Reply): (r: AppState)
    ensures r.calls == s.calls + [Call(GetDocuments, s.isLoading, None)]
    ensures reply.Ok? ==> r.documents == ItemsOf(reply.payload) && r.error == None
    ensures reply.Ok? && reply.payload.NotArray? ==> r.documents == []
    ensures reply.Err? ==> r.documents == [] && r.error == Some(LoadFailed)
    ensures r == s.(documents := r.documents, error := r.error, calls := r.calls)
  {
    var sent := Sent(s.(error := None), GetDocuments);
    if reply.Ok? then sent.(documents := ItemsOf(reply.payload))
    else sent.(error := Some(LoadFailed), documents := [])
  }

  /** The start-up effect: the health check, then the document load. The
      load clears the error first, so the error afterwards tells only how
      the load went, while the status tells how the health check went. */
  function Startup(s: AppState, health: Reply, docs: Reply): (r: AppState)
    ensures r.error == if docs.Err? then Some(LoadFailed) else None
    ensures r.apiStatus == if health.Ok? then Connected else Disconnected
    ensures r.calls == s.calls + [Call(GetHealth, s.isLoading, s.error), Call(GetDocuments, s.isLoading, None)]
    ensures docs.Ok? ==> r.documents == ItemsOf(docs.payload)
    ensures docs.Err? ==> r.documents == []
    ensures r == s.(apiStatus := r.apiStatus, documents := r.documents, error := r.error, calls := r.calls)
  {
    DocumentLoad(HealthCheck(s, health), docs)
  }

  /** handleFileUpload: with its result, the message it rethrows (None when
      it does not throw). */
  function Upload(s: AppState, file: SelectedFile, companyName: string, reportingYear: string,
                  upload: Reply, docs: Reply): (r: (AppState, Option<string>))
    ensures !r.0.isLoading
    ensures upload.Ok? ==> r.0.calls == s.calls + [Call(UploadPdf(file, companyName, reportingYear), true, None),
                                                   Call(GetDocuments, true, None)]
    ensures upload.Err? ==> r.0.calls == s.calls + [Call(UploadPdf(file, companyName, reportingYear), true, None)]
    ensures upload.Ok? ==> (r.1 == None && r.0.activeTab == DocumentsTab
      && r.0.error == (if docs.Err? then Some(LoadFailed) else None)
      && r.0.documents == (if docs.Ok? then ItemsOf(docs.payload) else []))
    ensures upload.Err? ==> (r.1 == Some(upload.message) && r.0.error == Some(upload.message)
      && r.0.activeTab == s.activeTab && r.0.documents == s.documents)
    ensures r.0.searchResults == s.searchResults && r.0.searchQuery == s.searchQuery
      && r.0.apiStatus == s.apiStatus
  {
    var sent := Sent(s.(isLoading := true, error := None), UploadPdf(file, companyName, reportingYear));
    if upload.Ok? then
      (DocumentLoad(sent, docs).(activeTab := DocumentsTab, isLoading := false), None)
    else
      (sent.(error := Some(upload.message), isLoading := false), Some(upload.message))
  }

  /** handleSearch: a query that is blank after trimming changes nothing
      and sends nothing. Otherwise the query is recorded and sent with the
      error cleared and loading on; a reply replaces the results and shows
      the search tab, a failure empties the results, shows its message and
      keeps the tab; loading ends off. */
  function Search(s: AppState, query: string, reply: Reply): (r: AppState)
    ensures IsJsBlank(query) ==> r == s
    ensures !IsJsBlank(query) ==> (!r.isLoading && r.searchQuery == query
      && r.calls == s.calls + [Call(SearchDocuments(query), true, None)])
    ensures !IsJsBlank(query) && reply.Ok? ==>
      r.searchResults == ItemsOf(reply.payload) && r.activeTab == SearchTab && r.error == None
    ensures !IsJsBlank(query) && reply.Err? ==>
      r.searchResults == [] && r.activeTab == s.activeTab && r.error == Some(reply.message)
    ensures r.documents == s.documents && r.apiStatus == s.apiStatus
  {
    if IsJsBlank(query) then s
    else
      var sent := Sent(s.(isLoading := true, error := None, searchQuery := query), SearchDocuments(query));
      if reply.Ok? then sent.(searchResults := ItemsOf(reply.payload), activeTab := SearchTab, isLoading := false)
      else sent.(error := Some(reply.message), searchResults := [], isLoading := false)
  }

  /** handleRetry: the error is cleared, then the health check runs, so the
      check is sent with no error showing. */
  function Retry(s: AppState, health: Reply): (r: AppState)
    ensures r.calls == s.calls + [Call(GetHealth, s.isLoading, None)]
    ensures r.apiStatus == if health.Ok? then Connected else Disconnected
    ensures r.error == if health.Ok? then None else Some(BackendUnavailable)
    ensures r == s.(apiStatus := r.apiStatus, error := r.error, calls := r.calls)
  {
    HealthCheck(s.(error := None), health)
  }

  /** A failed upload keeps the form filled in and shows the back end's
      message in the form; a successful one empties the form. */
  lemma UploadThroughForm(a: AppState, f: FormState, upload: Reply, docs: Reply)
    requires Complete(f)
    ensures var (_, thrown) := Upload(a, f.file.value, f.companyName, f.reportingYear, upload, docs);
      var g := Submit(f, false, thrown);
      && g.uploads == f.uploads + [UploadCall(f.file.value, f.companyName, f.reportingYear)]
      && (upload.Err? && upload.message != "" ==> Complete(g) && g.error == upload.message)
      && (upload.Ok? ==> !Complete(g) && g.error == "")
  {
  }

  /** The page's state. */
  class Controller {
    var activeTab: Tab
    var documents: seq<string>
    var searchResults: seq<string>
    var isLoading: bool
    var searchQuery: string
    var error: Option<string>
    var apiStatus: ApiStatus
    /** The requests sent so far. */
    ghost var calls: seq<Call>

    ghost function State(): AppState
      reads this
    {
      AppState(activeTab, documents, searchResults, isLoading, searchQuery, error, apiStatus, calls)
    }

    /** The initial values of the seven state hooks. */
    constructor()
      ensures State() == Initial()
    {
      activeTab, documents, searchResults, isLoading := UploadTab, [], [], false;
      searchQuery, error, apiStatus := "", None, Checking;
      calls := [];
    }

    method CheckApiHealth(reply: Reply)
      modifies this
      ensures State() == HealthCheck(old(State()), reply)
    {
      calls := calls + [Call(GetHealth, isLoading, error)];
      if reply.Ok? {
        apiStatus := Connected;
        error := None;
      } else {
        apiStatus := Disconnected;
        error := Some(BackendUnavailable);
      }
    }

    method LoadDocuments(reply: Reply)
      modifies this
      ensures State() == DocumentLoad(old(State()), reply)
    {
      error := None;
      calls := calls + [Call(GetDocuments, isLoading, error)];
      if reply.Ok? {
        documents := if reply.payload.JsonArray? then reply.payload.items else [];
      } else {
        error := Some(LoadFailed);
        documents := [];
      }
    }

    /** The start-up effect, run once on mount. */
    method Initialize(health: Reply, docs: Reply)
      modifies this
      ensures State() == Startup(old(State()), health, docs)
    {
      CheckApiHealth(health);
      LoadDocuments(docs);
    }

    method HandleFileUpload(file: SelectedFile, companyName: string, reportingYear: string,
                            upload: Reply, docs: Reply)
      returns (thrown: Option<string>)
      modifies this
      ensures (State(), thrown) == Upload(old(State()), file, companyName, reportingYear, upload, docs)
    {
      isLoading := true;
      error := None;
      calls := calls + [Call(UploadPdf(file, companyName, reportingYear), isLoading, error)];
      if upload.Err? {
        error := Some(upload.message);
        thrown := Some(upload.message);
      } else {
        LoadDocuments(docs);
        activeTab := DocumentsTab;
        thrown := None;
      }
      isLoading := false;
    }

    method HandleSearch(query: string, reply: Reply)
      modifies this
      ensures State() == Search(old(State()), query, reply)
    {
      if IsJsBlank(query) {
        return;
      }
      isLoading := true;
      error := None;
      searchQuery := query;
      calls := calls + [Call(SearchDocuments(query), isLoading, error)];
      if reply.Ok? {
        searchResults := if reply.payload.JsonArray? then reply.payload.items else [];
        activeTab := SearchTab;
      } else {
        error := Some(reply.message);
        searchResults := [];
      }
      isLoading := false;
    }

    method HandleRetry(health: Reply)
      modifies this
      ensures State() == Retry(old(State()), health)
    {
      error := None;
      CheckApiHealth(health);
    }

    /** The Dismiss button: clears the error and nothing else. */
    method DismissError()
      modifies this
      ensures State() == old(State()).(error := None)
    {
      error := None;
    }

    /** A tab button: shows that tab and changes nothing else. */
    method SelectTab(tab: Tab)
      modifies this
      ensures State() == old(State()).(activeTab := tab)
    {
      activeTab := tab;
    }
  }
}
