/**
 * The top level of the script: authenticate, fetch the assessment types of
 * the release, choose one, then upload the file.  Each stage runs only when
 * the one before it succeeded, and any failure ends the run.
 */
module Flow {
  import opened Wrappers
  import opened Errors
  import opened Endpoints
  import opened Selection
  import opened Upload

  /** The configuration the script reads from its environment. */
  datatype Settings = Settings(clientId: string, clientSecret: string, datacenter: string,
                               releaseId: string, entitlementId: string, assessmentType: string,
                               frameworkType: string, platformType: string)

  function ClientOf(s: Settings): Client
  {
    MakeClient(s.clientId, s.clientSecret, s.datacenter)
  }

  function ParamsOf(s: Settings): ScanParams
  {
    ScanParams(s.releaseId, s.entitlementId, s.frameworkType, s.platformType)
  }

  /**
   * The stages before the upload, as a value: the token and the chosen
   * assessment, or the error that stops the run.
   */
  function Prepare(s: Settings, tokenEndpoint: Request -> TokenResponse,
                   assessmentEndpoint: Request -> Option<seq<Item>>): Result<(Token, Assessment), Error>
  {
    match Authenticate(tokenEndpoint(TokenRequest(ClientOf(s))))
    case Failure(e) => Failure(e)
    case Success(t) =>
      match assessmentEndpoint(AssessmentTypesRequest(ClientOf(s), t, s.releaseId, s.assessmentType))
      case None => Failure(MalformedResponse)
      case Some(items) =>
        match Select(items, s.assessmentType)
        case Failure(e) => Failure(e)
        case Success(a) => Success((t, a))
  }

  /**
   * One run of the script.  The three endpoints stand for the service: the
   * token endpoint's status and parsed body, the parsed `items` of the
   * assessment-types reply (`None` when the body has none), and the
   * start-scan endpoint as in `UploadFile`.
   */
  method Run(s: Settings, file: seq<bv8>, startDate: string,
             tokenEndpoint: Request -> TokenResponse,
             assessmentEndpoint: Request -> Option<seq<Item>>,
             scanEndpoint: Request -> Option<Reply>)
    returns (sent: seq<Fragment>, outcome: Result<Reply, Error>)
    ensures Prepare(s, tokenEndpoint, assessmentEndpoint).Failure? ==>
      sent == [] && outcome == Failure(Prepare(s, tokenEndpoint, assessmentEndpoint).error)
    ensures Prepare(s, tokenEndpoint, assessmentEndpoint).Success? ==>
      var (t, a) := Prepare(s, tokenEndpoint, assessmentEndpoint).value;
      && 1 <= |sent| <= |Plan(file, startDate)| && sent == Plan(file, startDate)[..|sent|]
      && (outcome.Success? <==> forall i :: 0 <= i < |Plan(file, startDate)| ==>
            ReplyParses(scanEndpoint, ClientOf(s), t, ParamsOf(s), a, Plan(file, startDate)[i]))
      && (outcome.Failure? ==> outcome.error == UploadError)
      && (outcome.Success? ==>
            Some(outcome.value) == scanEndpoint(ChunkRequest(ClientOf(s), t, ParamsOf(s), a, sent[|sent| - 1])))
    ensures outcome.Success? ==> sent == Plan(file, startDate)
  {
    var client := ClientOf(s);
    var auth := Authenticate(tokenEndpoint(TokenRequest(client)));
    if auth.Failure? {
      return [], Failure(auth.error);
    }
    var token := auth.value;
    var results := assessmentEndpoint(AssessmentTypesRequest(client, token, s.releaseId, s.assessmentType));
    if results.None? {
      return [], Failure(MalformedResponse);
    }
    var chosen := SelectAssessment(results.value, s.assessmentType);
    if chosen.Failure? {
      return [], Failure(chosen.error);
    }
    sent, outcome := UploadFile(client, token, ParamsOf(s), chosen.value, file, startDate, scanEndpoint);
  }

  /** A token endpoint that answers with a non-2xx status ends the run with an authentication error. */
  lemma AuthenticationGate(s: Settings, tokenEndpoint: Request -> TokenResponse,
                           assessmentEndpoint: Request -> Option<seq<Item>>)
    ensures var status := tokenEndpoint(TokenRequest(ClientOf(s))).status;
      !(200 <= status <= 299) ==> Prepare(s, tokenEndpoint, assessmentEndpoint) == Failure(AuthenticationError)
  {
  }

  /**
   * When no item of the assessment-types reply has the requested frequency
   * type, the run stops with AssessmentNotFound, so nothing is uploaded.
   */
  lemma NoMatchStopsRun(s: Settings, tokenEndpoint: Request -> TokenResponse,
                        assessmentEndpoint: Request -> Option<seq<Item>>, items: seq<Item>)
    requires Authenticate(tokenEndpoint(TokenRequest(ClientOf(s)))).Success?
    requires assessmentEndpoint(AssessmentTypesRequest(ClientOf(s),
               Authenticate(tokenEndpoint(TokenRequest(ClientOf(s)))).value, s.releaseId, s.assessmentType)) == Some(items)
    requires forall i :: 0 <= i < |items| ==> items[i].frequencyType != s.assessmentType
    ensures Prepare(s, tokenEndpoint, assessmentEndpoint) == Failure(AssessmentNotFound)
  {
    SelectFails(items, s.assessmentType);
  }
}
