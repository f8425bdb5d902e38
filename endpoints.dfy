/**
 * The request builders of the upload client: the service's base URL, the
 * client record, the OAuth2 client-credentials token request and its success
 * decision, the `Authorization` header and the two REST URLs.
 */
module Endpoints {
  import opened Wrappers
  import opened Text
  import opened Errors

  const GovDatacenter := "fed"
  const ApiPrefix := "https://api."
  const GovHostSuffix := ".fortifygov.com"
  const HostSuffix := ".fortify.com"

  /**
   * `get_base_url`: the government-cloud host for the datacenter code "fed",
   * the commercial host for every other code, both named after the code.
   * The Ruby method interpolates an undefined local `dc` where it means its
   * parameter `datacenter`, so as written it raises NameError on every call;
   * this is the intended form, which uses the parameter.
   */
  function BaseUrl(datacenter: string): string
  {
    if datacenter == GovDatacenter then ApiPrefix + datacenter + GovHostSuffix
    else ApiPrefix + datacenter + HostSuffix
  }

  /**
   * `get_base_url` as the Ruby source has it.  Both branches interpolate the
   * name `dc`, looked up among the method's local variables `locals`; when it
   * is not one of them, Ruby raises NameError, which is `None` here.
   */
  function BaseUrlAsWritten(locals: map<string, string>, datacenter: string): Option<string>
  {
    if "dc" !in locals then None
    else if datacenter == GovDatacenter then Some(ApiPrefix + locals["dc"] + GovHostSuffix)
    else Some(ApiPrefix + locals["dc"] + HostSuffix)
  }

  /** The only local of `get_base_url` is its parameter, so every call as written raises. */
  lemma BaseUrlAsWrittenRaises(datacenter: string)
    ensures BaseUrlAsWritten(map["datacenter" := datacenter], datacenter) == None
    ensures BaseUrlAsWritten(map["datacenter" := datacenter], datacenter) != Some(BaseUrl(datacenter))
  {
    assert "dc" != "datacenter";
  }

  /** Reads the datacenter code back from a base URL. */
  function DatacenterOf(url: string): Option<string>
  {
    var n := |url|;
    if n >= |ApiPrefix| + |GovHostSuffix| && url[..|ApiPrefix|] == ApiPrefix
       && url[n - |GovHostSuffix|..] == GovHostSuffix && url[|ApiPrefix|..n - |GovHostSuffix|] == GovDatacenter
    then Some(GovDatacenter)
    else if n >= |ApiPrefix| + |HostSuffix| && url[..|ApiPrefix|] == ApiPrefix
       && url[n - |HostSuffix|..] == HostSuffix && url[|ApiPrefix|..n - |HostSuffix|] != GovDatacenter
    then Some(url[|ApiPrefix|..n - |HostSuffix|])
    else None
  }

  lemma BaseUrlHosts(datacenter: string)
    ensures datacenter == "fed" ==> BaseUrl(datacenter) == "https://api.fed.fortifygov.com"
    ensures datacenter != "fed" ==> BaseUrl(datacenter) == "https://api." + datacenter + ".fortify.com"
  {
  }

  /** The base URL names its datacenter: the code can be read back from it. */
  lemma BaseUrlNamesDatacenter(datacenter: string)
    ensures DatacenterOf(BaseUrl(datacenter)) == Some(datacenter)
  {
    var url := BaseUrl(datacenter);
    var n := |url|;
    assert url[..|ApiPrefix|] == ApiPrefix;
    if datacenter == GovDatacenter {
      assert url[n - |GovHostSuffix|..] == GovHostSuffix;
      assert url[|ApiPrefix|..n - |GovHostSuffix|] == datacenter;
    } else {
      assert url[n - |HostSuffix|..] == HostSuffix;
      assert url[|ApiPrefix|..n - |HostSuffix|] == datacenter;
      assert url[n - 5] == 'y';
      assert url[n - |GovHostSuffix|..][10] == url[n - 5];
      assert GovHostSuffix[10] == 'v';
    }
  }

  /** Two datacenter codes never share a base URL. */
  lemma BaseUrlInjective(d1: string, d2: string)
    requires BaseUrl(d1) == BaseUrl(d2)
    ensures d1 == d2
  {
    BaseUrlNamesDatacenter(d1);
    BaseUrlNamesDatacenter(d2);
  }

  /** The `client` record: credentials, base URL and the fixed OAuth2 grant and scope. */
  datatype Client = Client(clientId: string, clientSecret: string, baseUrl: string, grantType: string, scope: string)

  function MakeClient(clientId: string, clientSecret: string, datacenter: string): (c: Client)
    ensures c.clientId == clientId && c.clientSecret == clientSecret
    ensures DatacenterOf(c.baseUrl) == Some(datacenter)
    ensures c.grantType == "client_credentials" && c.scope == "start-scans"
  {
    BaseUrlNamesDatacenter(datacenter);
    Client(clientId, clientSecret, BaseUrl(datacenter), "client_credentials", "start-scans")
  }

  datatype Verb = Get | Post

  /** A request body: none, a form (key/value pairs, encoding not modelled) or raw bytes. */
  datatype Body = NoBody | Form(fields: seq<(string, string)>) | Bytes(data: seq<bv8>)

  datatype Request = Request(verb: Verb, url: string, headers: seq<(string, string)>, body: Body)

  function Keys(ps: seq<(string, string)>): (ks: seq<string>)
    ensures |ks| == |ps| && forall i :: 0 <= i < |ps| ==> ks[i] == ps[i].0
  {
    if ps == [] then [] else [ps[0].0] + Keys(ps[1..])
  }

  /** The request `authentication` posts to the token endpoint. */
  function TokenRequest(c: Client): Request
  {
    Request(Post, c.baseUrl + "/oauth/token", [("Accept", "application/json")],
            Form([("client_id", c.clientId), ("client_secret", c.clientSecret),
                  ("grant_type", c.grantType), ("scope", c.scope)]))
  }

  /** The token request carries exactly the four client-credentials fields. */
  lemma TokenRequestFields(clientId: string, clientSecret: string, datacenter: string)
    ensures var r := TokenRequest(MakeClient(clientId, clientSecret, datacenter));
      && r.verb == Post && r.url == BaseUrl(datacenter) + "/oauth/token"
      && r.headers == [("Accept", "application/json")]
      && r.body.Form?
      && Keys(r.body.fields) == ["client_id", "client_secret", "grant_type", "scope"]
      && Lookup(r.body.fields, "client_id") == Some(clientId)
      && Lookup(r.body.fields, "client_secret") == Some(clientSecret)
      && Lookup(r.body.fields, "grant_type") == Some("client_credentials")
      && Lookup(r.body.fields, "scope") == Some("start-scans")
  {
    var fields := TokenRequest(MakeClient(clientId, clientSecret, datacenter)).body.fields;
    assert Lookup(fields[3..], "scope") == Some("start-scans");
    assert Lookup(fields[2..], "grant_type") == Some("client_credentials");
    assert Lookup(fields[2..], "scope") == Some("start-scans");
    assert Lookup(fields[1..], "scope") == Some("start-scans");
  }

  /** The fields of the token response that the client uses. */
  datatype Token = Token(tokenType: string, accessToken: string)

  /** The status of the token response and its body, `None` when it is not a JSON token. */
  datatype TokenResponse = TokenResponse(status: int, body: Option<Token>)

  /** `Net::HTTPSuccess`: any 2xx status. */
  predicate IsSuccessStatus(status: int) { 200 <= status < 300 }

  /** The decision at the end of `authentication`. */
  function Authenticate(resp: TokenResponse): (r: Result<Token, Error>)
    ensures r.Success? <==> 200 <= resp.status <= 299 && resp.body.Some?
    ensures r.Success? ==> r.value == resp.body.value
    ensures !(200 <= resp.status <= 299) ==> r == Failure(AuthenticationError)
  {
    if !IsSuccessStatus(resp.status) then Failure(AuthenticationError)
    else if resp.body.None? then Failure(MalformedResponse)
    else Success(resp.body.value)
  }

  /** The `Authorization` header value: the token type, a space, the access token. */
  function AuthorizationValue(t: Token): string
  {
    t.tokenType + " " + t.accessToken
  }

  /** The header names both parts of the token, and they can be told apart again. */
  lemma AuthorizationSplits(t: Token)
    requires ' ' !in t.tokenType
    ensures SplitAtFirst(AuthorizationValue(t), ' ') == Some((t.tokenType, t.accessToken))
  {
    SplitAtFirstOf(t.tokenType, t.accessToken, ' ');
  }

  function JsonHeaders(t: Token): seq<(string, string)>
  {
    [("Accept", "application/json"), ("Authorization", AuthorizationValue(t))]
  }

  function AssessmentTypesPath(base: string, releaseId: string): string
  {
    base + "/api/v3/releases/" + releaseId + "/assessment-types"
  }

  function AssessmentTypesUrl(base: string, releaseId: string, scanType: string): string
  {
    Url(AssessmentTypesPath(base, releaseId), [("scanType", scanType)])
  }

  lemma AssessmentTypesUrlText(base: string, releaseId: string, scanType: string)
    ensures AssessmentTypesUrl(base, releaseId, scanType)
         == base + "/api/v3/releases/" + releaseId + "/assessment-types?scanType=" + scanType
  {
  }

  /** The assessment-types URL asks for exactly one scan type, the requested one. */
  lemma AssessmentTypesUrlParses(base: string, releaseId: string, scanType: string)
    requires '?' !in base && '?' !in releaseId && Plain(scanType)
    ensures ParseUrl(AssessmentTypesUrl(base, releaseId, scanType))
         == Some((AssessmentTypesPath(base, releaseId), [("scanType", scanType)]))
  {
    assert '?' !in AssessmentTypesPath(base, releaseId);
    UrlRoundTrip(AssessmentTypesPath(base, releaseId), [("scanType", scanType)]);
  }

  /** The GET request of `assessment_types`. */
  function AssessmentTypesRequest(c: Client, t: Token, releaseId: string, scanType: string): Request
  {
    Request(Get, AssessmentTypesUrl(c.baseUrl, releaseId, scanType), JsonHeaders(t), NoBody)
  }

  /** The assessment-types call is a GET with no body that carries the token in its `Authorization` header. */
  lemma AssessmentTypesRequestFields(c: Client, t: Token, releaseId: string, scanType: string)
    ensures var r := AssessmentTypesRequest(c, t, releaseId, scanType);
      && r.verb == Get && r.body == NoBody
      && r.url == c.baseUrl + "/api/v3/releases/" + releaseId + "/assessment-types?scanType=" + scanType
      && Keys(r.headers) == ["Accept", "Authorization"]
      && Lookup(r.headers, "Accept") == Some("application/json")
      && Lookup(r.headers, "Authorization") == Some(t.tokenType + " " + t.accessToken)
  {
    var hs := AssessmentTypesRequest(c, t, releaseId, scanType).headers;
    assert Lookup(hs[1..], "Authorization") == Some(AuthorizationValue(t));
    AssessmentTypesUrlText(c.baseUrl, releaseId, scanType);
  }

  /** The configuration `upload_chunk` reads from the environment. */
  datatype ScanParams = ScanParams(releaseId: string, entitlementId: string, frameworkType: string, platformType: string)

  const TimeZone := "GMT Standard Time"

  const StartScanKeys := ["assessmentTypeId", "entitlementFrequencyType", "entitlementId", "fragNo",
                          "frameworkType", "isRemediationScan", "offset", "platformType", "releaseId",
                          "startDate", "timeZone"]

  function StartScanPath(base: string, releaseId: string): string
  {
    base + "/api/v3/releases/" + releaseId + "/mobile-scans/start-scan"
  }

  /** Pairs each key with the value at the same position. */
  function Zip(keys: seq<string>, values: seq<string>): (ps: seq<(string, string)>)
    requires |keys| == |values|
    ensures |ps| == |keys| && forall i :: 0 <= i < |ps| ==> ps[i] == (keys[i], values[i])
  {
    if keys == [] then [] else [(keys[0], values[0])] + Zip(keys[1..], values[1..])
  }

  /** The query of the start-scan URL: `StartScanKeys` with their values, in that order. */
  function StartScanQuery(p: ScanParams, id: int, frequency: string, remediation: string,
                          fragNo: int, offset: int, startDate: string): seq<(string, string)>
  {
    Zip(StartScanKeys,
        [IntToDecimal(id), frequency, p.entitlementId, IntToDecimal(fragNo), p.frameworkType, remediation,
         IntToDecimal(offset), p.platformType, p.releaseId, startDate, TimeZone])
  }

  /** The start-scan URL of `upload_chunk`. */
  function StartScanUrl(base: string, p: ScanParams, id: int, frequency: string, remediation: string,
                        fragNo: int, offset: int, startDate: string): string
  {
    Url(StartScanPath(base, p.releaseId), StartScanQuery(p, id, frequency, remediation, fragNo, offset, startDate))
  }

  lemma PlainDecimal(i: int)
    ensures Plain(IntToDecimal(i))
  {
  }

  lemma PlainStartScanKeys()
    ensures forall i :: 0 <= i < |StartScanKeys| ==> Plain(StartScanKeys[i])
  {
  }

  lemma StartScanQueryPlain(p: ScanParams, id: int, frequency: string, remediation: string,
                            fragNo: int, offset: int, startDate: string)
    requires Plain(p.releaseId) && Plain(p.entitlementId) && Plain(p.frameworkType) && Plain(p.platformType)
    requires Plain(frequency) && Plain(remediation) && Plain(startDate)
    ensures PlainPairs(StartScanQuery(p, id, frequency, remediation, fragNo, offset, startDate))
  {
    var q := StartScanQuery(p, id, frequency, remediation, fragNo, offset, startDate);
    PlainDecimal(id);
    PlainDecimal(fragNo);
    PlainDecimal(offset);
    PlainStartScanKeys();
    assert Plain(TimeZone) by {
      forall j | 0 <= j < |TimeZone| ensures TimeZone[j] != '&' && TimeZone[j] != '=' && TimeZone[j] != '?' {
      }
    }
    var values := [IntToDecimal(id), frequency, p.entitlementId, IntToDecimal(fragNo), p.frameworkType, remediation,
                   IntToDecimal(offset), p.platformType, p.releaseId, startDate, TimeZone];
    assert forall i :: 0 <= i < |values| ==> Plain(values[i]);
  }

  /** The start-scan URL is its path and its query, and nothing else. */
  lemma StartScanUrlParses(base: string, p: ScanParams, id: int, frequency: string, remediation: string,
                           fragNo: int, offset: int, startDate: string)
    requires '?' !in base
    requires Plain(p.releaseId) && Plain(p.entitlementId) && Plain(p.frameworkType) && Plain(p.platformType)
    requires Plain(frequency) && Plain(remediation) && Plain(startDate)
    ensures ParseUrl(StartScanUrl(base, p, id, frequency, remediation, fragNo, offset, startDate))
         == Some((base + "/api/v3/releases/" + p.releaseId + "/mobile-scans/start-scan",
                  StartScanQuery(p, id, frequency, remediation, fragNo, offset, startDate)))
  {
    var q := StartScanQuery(p, id, frequency, remediation, fragNo, offset, startDate);
    StartScanQueryPlain(p, id, frequency, remediation, fragNo, offset, startDate);
    var path := StartScanPath(base, p.releaseId);
    assert '?' !in path by {
      assert '?' !in "/api/v3/releases/" && '?' !in "/mobile-scans/start-scan";
    }
    UrlRoundTrip(path, q);
  }

  /**
   * The start-scan query lists its parameters in a fixed order, and the
   * assessment id, fragment number and offset read back from their places
   * are exactly the ones it was built from.
   */
  lemma StartScanQueryFields(p: ScanParams, id: int, frequency: string, remediation: string,
                             fragNo: int, offset: int, startDate: string)
    ensures var q := StartScanQuery(p, id, frequency, remediation, fragNo, offset, startDate);
      && Keys(q) == ["assessmentTypeId", "entitlementFrequencyType", "entitlementId", "fragNo",
                     "frameworkType", "isRemediationScan", "offset", "platformType", "releaseId",
                     "startDate", "timeZone"]
      && ParseInt(q[0].1) == Some(id)
      && q[1].1 == frequency && q[2].1 == p.entitlementId
      && ParseInt(q[3].1) == Some(fragNo)
      && q[4].1 == p.frameworkType && q[5].1 == remediation
      && ParseInt(q[6].1) == Some(offset)
      && q[7].1 == p.platformType && q[8].1 == p.releaseId
      && q[9].1 == startDate && q[10].1 == "GMT Standard Time"
  {
    IntRoundTrip(id);
    IntRoundTrip(fragNo);
    IntRoundTrip(offset);
  }

  function UploadHeaders(t: Token): seq<(string, string)>
  {
    JsonHeaders(t) + [("Content-Type", "application/octet-stream")]
  }
}
