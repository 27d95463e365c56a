/**
 * The deterministic layer of the HCS self-check client: the request URLs it
 * builds, how it reads the answers of the school search and of the student
 * lookup, and the "all healthy" survey request it submits.
 *
 * The network, the JSON codec, RSA encryption and form escaping are outside
 * the model. A server is a function from what is sent to what comes back,
 * already decoded (`Decoded`) and wrapped in the transport's outcome (`Reply`);
 * the escaped school name and the two ciphertexts are inputs.
 */
module SelfCheck {
  import opened Wrappers
  import opened Areas
  import opened Decimal

  /** The school level sent to the school search, a plain integer. */
  type Level = int

  const LEVEL_KIDER: Level := 1
  const LEVEL_ELEMENTRY: Level := 2
  const LEVEL_MIDDLE: Level := 3
  const LEVEL_HIGH: Level := 4
  const LEVEL_SPECIAL: Level := 5

  /** The errors the client returns. */
  datatype Error =
    | InfoNotFound                    // the client's own "Cannot Find Data"
    | DecodeError(detail: string)     // the JSON decoder rejected a body
    | TransportError(detail: string)  // the HTTP round trip failed
    | RequestError(detail: string)    // the request could not be built

  datatype Result<T> = Ok(value: T) | Err(error: Error)

  /** The result of a call that returns only an error or nothing. */
  datatype Outcome = Pass | Fail(error: Error)

  /** What the JSON decoder made of a response body. */
  datatype Decoded<T> = Parsed(value: T) | Malformed(detail: string)

  /** What the HTTP transport delivered for one request. */
  datatype Reply<T> = Unreachable(detail: string) | Received(status: int, body: Decoded<T>)

  /** A JSON value in a request body; the client only ever sends strings and null. */
  datatype Json = JNull | JString(text: string)

  /** HTTP headers: each name holds its values in the order they were added. */
  type Header = map<string, seq<string>>

  datatype Request = Request(verb: string, url: string, header: Header, body: map<string, Json>)

  /** One candidate of the school search: its organization code. */
  datatype SchoolCandidate = SchoolCandidate(orgCode: string)

  /** The decoded school-search answer: its `schulList` array. */
  datatype SchoolSearch = SchoolSearch(schulList: seq<SchoolCandidate>)

  /**
   * A student's session: school name, (encrypted) name and token as the student
   * lookup returned them, plus the plain birth date and the area prefix that
   * the client fills in itself.
   */
  datatype StudentInfo = StudentInfo(schoolName: string, name: string, token: string, birth: string, areaURL: string)

  /** The longest prefix of `s` that does not contain `stop`. */
  function TakeUntil(s: string, stop: char): (r: string)
    ensures |r| <= |s| && r == s[..|r|]
    ensures stop !in r
    ensures |r| < |s| ==> s[|r|] == stop
  {
    if s == [] || s[0] == stop then [] else [s[0]] + TakeUntil(s[1..], stop)
  }

  /** Reading up to `stop` in `a + b` gives `a` when `a` lacks `stop` and `b` starts with it. */
  lemma TakeUntilConcat(a: string, b: string, stop: char)
    requires stop !in a && (b == [] || b[0] == stop)
    ensures TakeUntil(a + b, stop) == a
  {
    assert (a + b)[..|a|] == a;
  }

  // ---------------------------------------------------------------------------
  // Region endpoints

  const HostSuffix := "hcs.eduro.go.kr"

  /** `https://<prefix>hcs.eduro.go.kr<path>`: a path on an area's own host. */
  function Endpoint(prefix: string, path: string): string {
    "https://" + prefix + HostSuffix + path
  }

  /** The area whose host a URL names, read from the three letters after the scheme. */
  function AreaOfEndpoint(url: string): (area: Option<Area>)
    ensures area.Some? ==> IsArea(area.value)
  {
    if 11 + |HostSuffix| <= |url| && url[..8] == "https://" && url[11..11 + |HostSuffix|] == HostSuffix
    then AreaOfURL(url[8..11])
    else None
  }

  /** The path of an endpoint URL, after the host. */
  function PathOfEndpoint(url: string): string {
    if 11 + |HostSuffix| <= |url| then url[11 + |HostSuffix|..] else ""
  }

  /** An area's endpoint names that area and the given path. */
  lemma EndpointRoundTrip(area: Area, path: string)
    requires IsArea(area)
    ensures AreaOfEndpoint(Endpoint(GetAreaURL(area), path)) == Some(area)
    ensures PathOfEndpoint(Endpoint(GetAreaURL(area), path)) == path
  {
    var url := Endpoint(GetAreaURL(area), path);
    assert url[..8] == "https://";
    assert url[8..11] == GetAreaURL(area);
    assert url[11..11 + |HostSuffix|] == HostSuffix;
    assert url[11 + |HostSuffix|..] == path;
    AreaOfURLRoundTrip(area);
  }

  // ---------------------------------------------------------------------------
  // School search

  const SearchSchoolBase := "https://hcs.eduro.go.kr/v2/searchSchool?lctnScCode="
  const LevelParam := "&schulCrseScCode="
  const OrgNameParam := "&orgName="
  const LoginTypeParam := "&loginType=school"

  /**
   * The school-search URL on the shared host: the area's location code as two
   * digits, the level as `%d`, the (already escaped) school name.
   */
  function SearchSchoolURL(area: Area, level: Level, orgName: string): (url: string)
    requires IsArea(area)
    ensures |SearchSchoolBase| + 2 <= |url| && url[..|SearchSchoolBase|] == SearchSchoolBase
    ensures var code := url[|SearchSchoolBase|..|SearchSchoolBase| + 2];
      AllDigits(code) && ParseNat(code) == GetAreaCode(area)
    ensures url[|SearchSchoolBase| + 2..] == SearchSchoolTail(level, orgName)
  {
    var url := SearchSchoolBase + PadTwoDigits(GetAreaCode(area)) + SearchSchoolTail(level, orgName);
    assert url[..|SearchSchoolBase|] == SearchSchoolBase;
    assert url[|SearchSchoolBase|..|SearchSchoolBase| + 2] == PadTwoDigits(GetAreaCode(area));
    url
  }

  /** What follows the location code: the level as `%d`, the school name, the login type. */
  function SearchSchoolTail(level: Level, orgName: string): (tail: string)
    ensures |LoginTypeParam| <= |tail| && tail[|tail| - |LoginTypeParam|..] == LoginTypeParam
  {
    var tail := LevelParam + FormatInt(level) + OrgNameParam + orgName + LoginTypeParam;
    assert tail[|tail| - |LoginTypeParam|..] == LoginTypeParam;
    tail
  }

  /** The query of a school search. */
  datatype SchoolQuery = SchoolQuery(area: Area, level: Level, orgName: string)

  /** Reads the escaped school name out of `&orgName=<name>&loginType=school`. */
  function ParseOrgNameField(after: string): Option<string> {
    if |after| < |OrgNameParam| + |LoginTypeParam|
       || after[..|OrgNameParam|] != OrgNameParam
       || after[|after| - |LoginTypeParam|..] != LoginTypeParam
    then None
    else Some(after[|OrgNameParam|..|after| - |LoginTypeParam|])
  }

  /** Reads the level, up to the next `&`, and then the school name. */
  function ParseLevelField(tail: string): Option<(Level, string)> {
    var levelText := TakeUntil(tail, '&');
    match ParseInt(levelText)
    case None => None
    case Some(level) =>
      match ParseOrgNameField(tail[|levelText|..])
      case None => None
      case Some(orgName) => Some((level, orgName))
  }

  /** Reads level and escaped school name back out of what follows the location code. */
  function ParseSearchSchoolTail(rest: string): Option<(Level, string)> {
    if |rest| < |LevelParam| || rest[..|LevelParam|] != LevelParam then None
    else ParseLevelField(rest[|LevelParam|..])
  }

  /** Reads area, level and escaped school name back out of a school-search URL. */
  function ParseSearchSchoolURL(url: string): (q: Option<SchoolQuery>)
    ensures q.Some? ==> IsArea(q.value.area)
  {
    var p := |SearchSchoolBase|;
    if |url| < p + 2 || url[..p] != SearchSchoolBase || !AllDigits(url[p..p + 2]) then None
    else
      match AreaOfCode(ParseNat(url[p..p + 2]))
      case None => None
      case Some(area) =>
        match ParseSearchSchoolTail(url[p + 2..])
        case None => None
        case Some((level, orgName)) => Some(SchoolQuery(area, level, orgName))
  }

  /** The school name is read back from between its key and the login type. */
  lemma OrgNameFieldRoundTrip(orgName: string)
    ensures ParseOrgNameField(OrgNameParam + orgName + LoginTypeParam) == Some(orgName)
  {
    var after := OrgNameParam + orgName + LoginTypeParam;
    assert after[..|OrgNameParam|] == OrgNameParam;
    assert after[|after| - |LoginTypeParam|..] == LoginTypeParam;
    assert after[|OrgNameParam|..|after| - |LoginTypeParam|] == orgName;
  }

  /** The part after the location code carries the level and the school name unchanged. */
  lemma SearchSchoolTailRoundTrip(level: Level, orgName: string)
    ensures ParseSearchSchoolTail(SearchSchoolTail(level, orgName)) == Some((level, orgName))
  {
    var levelText := FormatInt(level);
    var after := OrgNameParam + orgName + LoginTypeParam;
    var rest := SearchSchoolTail(level, orgName);
    assert rest == LevelParam + (levelText + after);
    assert rest[..|LevelParam|] == LevelParam;
    var tail := rest[|LevelParam|..];
    assert tail == levelText + after;
    TakeUntilConcat(levelText, after, '&');
    assert tail[|levelText|..] == after;
    ParseFormatInt(level);
    OrgNameFieldRoundTrip(orgName);
  }

  /** The school-search URL carries its area, level and school name unchanged. */
  lemma SearchSchoolURLRoundTrip(area: Area, level: Level, orgName: string)
    requires IsArea(area)
    ensures ParseSearchSchoolURL(SearchSchoolURL(area, level, orgName)) == Some(SchoolQuery(area, level, orgName))
  {
    AreaOfCodeRoundTrip(area);
    SearchSchoolTailRoundTrip(level, orgName);
  }

  /**
   * The organization code of a school: the first candidate the search returns.
   * `queryEscape` is the form escaping of the name, `answer` the server's
   * decoded answer to a GET of a URL.
   */
  function FindSchool(name: string, area: Area, level: Level,
                      queryEscape: string -> string,
                      answer: string -> Decoded<SchoolSearch>): (r: Result<string>)
    requires IsArea(area)
    ensures var reply := answer(SearchSchoolURL(area, level, queryEscape(name)));
      && (reply.Malformed? ==> r == Err(DecodeError(reply.detail)))
      && (reply.Parsed? && |reply.value.schulList| == 0 ==> r == Err(InfoNotFound))
      && (r.Ok? <==> reply.Parsed? && |reply.value.schulList| > 0)
      && (r.Ok? ==> r.value == reply.value.schulList[0].orgCode)
  {
    match answer(SearchSchoolURL(area, level, queryEscape(name)))
    case Malformed(detail) => Err(DecodeError(detail))
    case Parsed(data) =>
      if |data.schulList| < 1 then Err(InfoNotFound)
      else Ok(data.schulList[0].orgCode)
  }

  /** Only the first candidate matters: later candidates never change the result. */
  lemma FirstCandidateWins(name: string, area: Area, level: Level, queryEscape: string -> string,
                           answer1: string -> Decoded<SchoolSearch>, answer2: string -> Decoded<SchoolSearch>)
    requires IsArea(area)
    requires var url := SearchSchoolURL(area, level, queryEscape(name));
      && answer1(url).Parsed? && answer2(url).Parsed?
      && |answer1(url).value.schulList| > 0 && |answer2(url).value.schulList| > 0
      && answer1(url).value.schulList[0] == answer2(url).value.schulList[0]
    ensures FindSchool(name, area, level, queryEscape, answer1) == FindSchool(name, area, level, queryEscape, answer2)
  {
  }

  // ---------------------------------------------------------------------------
  // Student lookup

  /** `https://<prefix>hcs.eduro.go.kr/v2/findUser` on the area's host. */
  function FindUserURL(area: Area): (url: string)
    requires IsArea(area)
    ensures AreaOfEndpoint(url) == Some(area) && PathOfEndpoint(url) == "/v2/findUser"
  {
    EndpointRoundTrip(area, "/v2/findUser");
    Endpoint(GetAreaURL(area), "/v2/findUser")
  }

  /** The header `http.Post` sends with a JSON body. */
  const JsonContentType: Header := map["Content-Type" := ["application/json"]]

  /**
   * The student-lookup request: a JSON POST to the area's `findUser` with the
   * encrypted name and birth date, the organization code and the login type.
   */
  function FindUserRequest(area: Area, orgCode: string, encryptedName: string, encryptedBirth: string): (req: Request)
    requires IsArea(area)
    ensures req.verb == "POST" && req.url == FindUserURL(area)
    ensures req.header.Keys == {"Content-Type"} && req.header["Content-Type"] == ["application/json"]
    ensures req.body.Keys == {"name", "birthday", "orgCode", "loginType"}
    ensures req.body["name"] == JString(encryptedName) && req.body["birthday"] == JString(encryptedBirth)
    ensures req.body["orgCode"] == JString(orgCode) && req.body["loginType"] == JString("school")
  {
    Request("POST", FindUserURL(area), JsonContentType,
      map["name" := JString(encryptedName), "birthday" := JString(encryptedBirth),
          "orgCode" := JString(orgCode), "loginType" := JString("school")])
  }

  /**
   * Looks a student up. `encryptedName` and `encryptedBirth` are the
   * ciphertexts of the name and of `birth`; `post` is the server and
   * transport. The decoded record is completed with the area prefix and the
   * plain birth date; the HTTP status is not looked at.
   */
  function GetStudnetInfo(area: Area, orgCode: string, birth: string,
                          encryptedName: string, encryptedBirth: string,
                          post: Request -> Reply<StudentInfo>): (r: Result<StudentInfo>)
    requires IsArea(area)
    ensures var reply := post(FindUserRequest(area, orgCode, encryptedName, encryptedBirth));
      && (reply.Unreachable? ==> r == Err(TransportError(reply.detail)))
      && (reply.Received? && reply.body.Malformed? ==> r == Err(InfoNotFound))
      && (r.Ok? <==> reply.Received? && reply.body.Parsed?)
      && (r.Ok? ==>
            && r.value.areaURL == GetAreaURL(area) && r.value.birth == birth
            && r.value.schoolName == reply.body.value.schoolName
            && r.value.name == reply.body.value.name
            && r.value.token == reply.body.value.token)
  {
    match post(FindUserRequest(area, orgCode, encryptedName, encryptedBirth))
    case Unreachable(detail) => Err(TransportError(detail))
    case Received(_, Malformed(_)) => Err(InfoNotFound)
    case Received(_, Parsed(data)) => Ok(data.(areaURL := GetAreaURL(area), birth := birth))
  }

  // ---------------------------------------------------------------------------
  // Survey submission

  /** `http.Header.Add`: appends a value to the ones already under the name. */
  function AddHeader(header: Header, name: string, value: string): (h: Header)
    ensures h.Keys == header.Keys + {name}
    ensures h[name] == (if name in header then header[name] else []) + [value]
    ensures forall other :: other in header && other != name ==> h[other] == header[other]
  {
    header[name := (if name in header then header[name] else []) + [value]]
  }

  /** `https://<prefix>hcs.eduro.go.kr/registerServey` on the session's host. */
  function RegisterServeyURL(s: StudentInfo): (url: string)
    ensures AreaOfURL(s.areaURL).Some? ==>
      AreaOfEndpoint(url) == AreaOfURL(s.areaURL) && PathOfEndpoint(url) == "/registerServey"
  {
    var url := Endpoint(s.areaURL, "/registerServey");
    match AreaOfURL(s.areaURL)
    case None => url
    case Some(area) =>
      EndpointRoundTrip(area, "/registerServey");
      url
  }

  /**
   * The "all healthy" answers, field by field, as the client sends them. What
   * the map holds is stated by `ServeyPayloadShape` and the lemmas it uses.
   */
  function ServeyPayload(s: StudentInfo): map<string, Json> {
    map[
      "eviceUuid" := JString(""),
      "rspns00" := JString("Y"),
      "rspns01" := JString("1"),
      "rspns02" := JString("1"),
      "rspns03" := JNull,
      "rspns04" := JNull,
      "rspns05" := JNull,
      "rspns06" := JNull,
      "rspns07" := JNull,
      "rspns08" := JNull,
      "rspns09" := JString("0"),
      "rspns10" := JNull,
      "rspns11" := JNull,
      "rspns12" := JNull,
      "rspns13" := JNull,
      "rspns14" := JNull,
      "rspns15" := JNull,
      "upperToken" := JString(s.token),
      "upperUserNameEncpt" := JString(s.name)
    ]
  }

  /** The key of answer `i` (below 100): `rspns` and the two digits of `i`. */
  function RspnsKey(i: nat): string
    requires i < 100
  {
    "rspns" + [DigitChar(i / 10), DigitChar(i % 10)]
  }

  /** Different answer numbers have different keys. */
  lemma RspnsKeyInjective(i: nat, j: nat)
    requires i < 100 && j < 100 && RspnsKey(i) == RspnsKey(j)
    ensures i == j
  {
    assert RspnsKey(i)[5] == RspnsKey(j)[5] && RspnsKey(i)[6] == RspnsKey(j)[6];
    assert DigitValue(DigitChar(i / 10)) == DigitValue(DigitChar(j / 10));
    assert DigitValue(DigitChar(i % 10)) == DigitValue(DigitChar(j % 10));
  }

  /** Answer `i` of a healthy student: "Y", "1", "1" for the first three, "0" for the tenth, none otherwise. */
  function HealthyAnswer(i: nat): Json {
    if i == 0 then JString("Y")
    else if i == 1 || i == 2 then JString("1")
    else if i == 9 then JString("0")
    else JNull
  }

  /** The three keys of the payload that are not answers. */
  const ServeyExtraKeys: set<string> := {"eviceUuid", "upperToken", "upperUserNameEncpt"}

  /** The payload answers questions `rspns00`..`rspns03` as a healthy student does. */
  lemma ServeyPayloadAnswersFirst(s: StudentInfo)
    ensures forall i: nat :: i < 4 ==> RspnsKey(i) in ServeyPayload(s) && ServeyPayload(s)[RspnsKey(i)] == HealthyAnswer(i)
  {
    var body := ServeyPayload(s);
    forall i: nat | i < 4
      ensures RspnsKey(i) in body && body[RspnsKey(i)] == HealthyAnswer(i)
    {
      if i == 0 { assert RspnsKey(0) == "rspns00"; }
      else if i == 1 { assert RspnsKey(1) == "rspns01"; }
      else if i == 2 { assert RspnsKey(2) == "rspns02"; }
      else { assert RspnsKey(3) == "rspns03"; }
    }
  }

  /** The payload answers questions `rspns04`..`rspns07` as a healthy student does. */
  lemma ServeyPayloadAnswersSecond(s: StudentInfo)
    ensures forall i: nat :: 4 <= i < 8 ==> RspnsKey(i) in ServeyPayload(s) && ServeyPayload(s)[RspnsKey(i)] == HealthyAnswer(i)
  {
    var body := ServeyPayload(s);
    forall i: nat | 4 <= i < 8
      ensures RspnsKey(i) in body && body[RspnsKey(i)] == HealthyAnswer(i)
    {
      if i == 4 { assert RspnsKey(4) == "rspns04"; }
      else if i == 5 { assert RspnsKey(5) == "rspns05"; }
      else if i == 6 { assert RspnsKey(6) == "rspns06"; }
      else { assert RspnsKey(7) == "rspns07"; }
    }
  }

  /** The payload answers questions `rspns08`..`rspns11` as a healthy student does. */
  lemma ServeyPayloadAnswersThird(s: StudentInfo)
    ensures forall i: nat :: 8 <= i < 12 ==> RspnsKey(i) in ServeyPayload(s) && ServeyPayload(s)[RspnsKey(i)] == HealthyAnswer(i)
  {
    var body := ServeyPayload(s);
    forall i: nat | 8 <= i < 12
      ensures RspnsKey(i) in body && body[RspnsKey(i)] == HealthyAnswer(i)
    {
      if i == 8 { assert RspnsKey(8) == "rspns08"; }
      else if i == 9 { assert RspnsKey(9) == "rspns09"; }
      else if i == 10 { assert RspnsKey(10) == "rspns10"; }
      else { assert RspnsKey(11) == "rspns11"; }
    }
  }

  /** The payload answers questions `rspns12`..`rspns15` as a healthy student does. */
  lemma ServeyPayloadAnswersFourth(s: StudentInfo)
    ensures forall i: nat :: 12 <= i < 16 ==> RspnsKey(i) in ServeyPayload(s) && ServeyPayload(s)[RspnsKey(i)] == HealthyAnswer(i)
  {
    var body := ServeyPayload(s);
    forall i: nat | 12 <= i < 16
      ensures RspnsKey(i) in body && body[RspnsKey(i)] == HealthyAnswer(i)
    {
      if i == 12 { assert RspnsKey(12) == "rspns12"; }
      else if i == 13 { assert RspnsKey(13) == "rspns13"; }
      else if i == 14 { assert RspnsKey(14) == "rspns14"; }
      else { assert RspnsKey(15) == "rspns15"; }
    }
  }

  /** The payload answers each question `rspns00`..`rspns15` as a healthy student does. */
  lemma ServeyPayloadAnswers(s: StudentInfo)
    ensures forall i: nat :: i < 16 ==> RspnsKey(i) in ServeyPayload(s) && ServeyPayload(s)[RspnsKey(i)] == HealthyAnswer(i)
  {
    ServeyPayloadAnswersFirst(s);
    ServeyPayloadAnswersSecond(s);
    ServeyPayloadAnswersThird(s);
    ServeyPayloadAnswersFourth(s);
  }

  /** The device id is empty; the session's token and name are copied in. */
  lemma ServeyPayloadFields(s: StudentInfo)
    ensures var body := ServeyPayload(s);
      && "eviceUuid" in body && body["eviceUuid"] == JString("")
      && "upperToken" in body && body["upperToken"] == JString(s.token)
      && "upperUserNameEncpt" in body && body["upperUserNameEncpt"] == JString(s.name)
  {
    var body := ServeyPayload(s);
    assert body["upperUserNameEncpt"] == JString(s.name);
    assert "upperToken" != "upperUserNameEncpt";
    assert body["upperToken"] == JString(s.token);
    assert forall key :: key in body.Keys - ServeyExtraKeys ==> |key| == 7;
    assert body["eviceUuid"] == JString("");
  }

  /** The answer keys of the payload's map literal, by tens digit. */
  const LiteralUnitsKeys: set<string> := {"rspns00", "rspns01", "rspns02", "rspns03", "rspns04", "rspns05", "rspns06", "rspns07", "rspns08", "rspns09"}
  const LiteralTensKeys: set<string> := {"rspns10", "rspns11", "rspns12", "rspns13", "rspns14", "rspns15"}

  lemma LiteralUnitsKeysCount()
    ensures |LiteralUnitsKeys| == 10
  {
  }

  lemma LiteralTensKeysCount()
    ensures |LiteralTensKeys| == 6
  {
  }

  lemma LiteralKeysDisjoint()
    ensures LiteralUnitsKeys !! LiteralTensKeys
    ensures (LiteralUnitsKeys + LiteralTensKeys) !! ServeyExtraKeys
  {
    assert forall key :: key in LiteralUnitsKeys ==> |key| == 7 && key[5] == '0';
    assert forall key :: key in LiteralTensKeys ==> |key| == 7 && key[5] == '1';
    assert forall key :: key in ServeyExtraKeys ==> |key| != 7;
  }

  /** The payload's keys are the sixteen answer keys and the three others, nothing else. */
  lemma ServeyPayloadKeys(s: StudentInfo)
    ensures ServeyPayload(s).Keys == LiteralUnitsKeys + LiteralTensKeys + ServeyExtraKeys
  {
  }

  /** The payload's map literal has nineteen different keys. */
  lemma ServeyPayloadSize(s: StudentInfo)
    ensures |ServeyPayload(s)| == 19
  {
    ServeyPayloadKeys(s);
    LiteralUnitsKeysCount();
    LiteralTensKeysCount();
    assert |ServeyExtraKeys| == 3;
    LiteralKeysDisjoint();
  }

  /**
   * The payload holds exactly the sixteen answers `rspns00`..`rspns15` with
   * their healthy values, an empty `eviceUuid`, and the session's token and
   * name: nineteen keys and nothing else.
   */
  lemma ServeyPayloadShape(s: StudentInfo)
    ensures var body := ServeyPayload(s);
      && body.Keys == LiteralUnitsKeys + LiteralTensKeys + ServeyExtraKeys
      && |body| == 19
      && (forall i: nat :: i < 16 ==> RspnsKey(i) in body && body[RspnsKey(i)] == HealthyAnswer(i))
      && body["eviceUuid"] == JString("")
      && body["upperToken"] == JString(s.token)
      && body["upperUserNameEncpt"] == JString(s.name)
  {
    ServeyPayloadAnswers(s);
    ServeyPayloadKeys(s);
    ServeyPayloadSize(s);
    ServeyPayloadFields(s);
  }

  /** The survey request: a POST of the payload to the session's host, authorized by its token. */
  function AllHealthyRequest(s: StudentInfo): (req: Request)
    ensures req.verb == "POST" && req.url == RegisterServeyURL(s)
    ensures req.header.Keys == {"Authorization", "Content-Type"}
    ensures req.header["Authorization"] == [s.token]
    ensures req.header["Content-Type"] == ["application/json"]
    ensures req.body == ServeyPayload(s)
  {
    var header := AddHeader(AddHeader(map[], "Authorization", s.token), "Content-Type", "application/json");
    Request("POST", RegisterServeyURL(s), header, ServeyPayload(s))
  }

  /**
   * Submits the survey. `urlError` is the URL parser's complaint about a URL,
   * if any; `send` is the server and transport. The call fails when the
   * request cannot be built, when the transport fails, or when the answer
   * cannot be decoded into a map (anything but a JSON object or `null`); the
   * HTTP status is never looked at.
   */
  function AllHealthy(s: StudentInfo, urlError: string -> Option<string>,
                      send: Request -> Reply<()>): (r: Outcome)
    ensures var reply := send(AllHealthyRequest(s));
      && (urlError(RegisterServeyURL(s)).Some? ==> r == Fail(RequestError(urlError(RegisterServeyURL(s)).value)))
      && (urlError(RegisterServeyURL(s)).None? && reply.Unreachable? ==> r == Fail(TransportError(reply.detail)))
      && (urlError(RegisterServeyURL(s)).None? && reply.Received? && reply.body.Malformed? ==>
            r == Fail(DecodeError(reply.body.detail)))
      && (r.Pass? <==> urlError(RegisterServeyURL(s)).None? && reply.Received? && reply.body.Parsed?)
  {
    match urlError(RegisterServeyURL(s))
    case Some(problem) => Fail(RequestError(problem))
    case None =>
      match send(AllHealthyRequest(s))
      case Unreachable(detail) => Fail(TransportError(detail))
      case Received(_, Malformed(detail)) => Fail(DecodeError(detail))
      case Received(_, Parsed(_)) => Pass
  }

  /** Two servers that differ only in the status code they answer with give the same outcome. */
  lemma AllHealthyIgnoresStatus(s: StudentInfo, urlError: string -> Option<string>,
                                send1: Request -> Reply<()>, send2: Request -> Reply<()>)
    requires var req := AllHealthyRequest(s);
      && send1(req).Received? && send2(req).Received? && send1(req).body == send2(req).body
    ensures AllHealthy(s, urlError, send1) == AllHealthy(s, urlError, send2)
  {
  }

  /**
   * A session from the student lookup submits its survey to the same area's
   * host, authorized by and carrying the token the lookup answered with.
   */
  lemma SurveyFollowsLookup(area: Area, orgCode: string, birth: string,
                            encryptedName: string, encryptedBirth: string,
                            post: Request -> Reply<StudentInfo>)
    requires IsArea(area)
    requires GetStudnetInfo(area, orgCode, birth, encryptedName, encryptedBirth, post).Ok?
    ensures var s := GetStudnetInfo(area, orgCode, birth, encryptedName, encryptedBirth, post).value;
      var found := post(FindUserRequest(area, orgCode, encryptedName, encryptedBirth)).body.value;
      var req := AllHealthyRequest(s);
      && AreaOfEndpoint(req.url) == Some(area)
      && PathOfEndpoint(req.url) == "/registerServey"
      && req.header["Authorization"] == [found.token]
      && req.body["upperToken"] == JString(found.token)
      && req.body["upperUserNameEncpt"] == JString(found.name)
  {
    EndpointRoundTrip(area, "/registerServey");
  }
}
