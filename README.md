# auto-selfcheck, modelled in Dafny

This project models the client core of `auto-selfcheck`. That is a Go library that submits the daily
COVID-19 health self-check for a student to the Korean education office's HCS service
(`hcs.eduro.go.kr`). The library works in three steps:

1. It finds a school's organization code through the shared `searchSchool` endpoint. The URL
   carries the area's location code, padded to two digits.
2. It looks the student up at the area's own host (`https://<prefix>hcs.eduro.go.kr/v2/findUser`).
   The lookup completes the returned record with the area prefix and the plain birth date.
3. It posts a fixed "all healthy" questionnaire to that host's `registerServey`, authorized by the
   token from the lookup.

The model has four modules:

- `Wrappers`: `Option`.
- `Areas`: the 17 area constants, the location-code table and the host-prefix table. Each table has
  an inverse, so the model proves both tables injective and states the exact image of the
  location codes.
- `Decimal`: Go's `%d` rendering of integers, including negative ones, and the `0%d` padding the
  school search applies to codes below 10. It also has a reader that inverts both.
- `SelfCheck`: request construction and result selection for `FindSchool`, `GetStudnetInfo` and
  `AllHealthy`.

The network, the JSON codec, `QueryEscape` and the RSA encryption are not modelled as code. They
enter the model as function parameters, in three ways:

- A server is a function from the request to a decoded answer (`Decoded`) or a transport outcome
  (`Reply`).
- URL escaping is a function from a string to a string.
- The two ciphertexts are inputs.

So each operation is proved for every possible server behaviour.

Points where the code differs from what a reader of the HCS protocol might expect:

- `AllHealthy` never looks at the HTTP status. It succeeds whenever the transport succeeds and
  `json.Unmarshal` can decode the answer into a map, that is, when it is a JSON object or `null`.
  It does not require status 200. `AllHealthyIgnoresStatus` states this.
- The student lookup is a single `findUser` POST. There is no `selectUserGroup`/`getUserInfo`
  exchange, and the survey uses the token that `findUser` returned.
- The school search goes to `hcs.eduro.go.kr` itself, with no area prefix on the host.
- The payload's device-id key is spelled `eviceUuid`, as in the code.
- A student-lookup answer that does not decode is reported as "not found" (`InfoNotFound`), not as
  a decode error. A school-search answer that does not decode is reported as a decode error.

## Model

| member | source | states |
|---|---|---|
| Areas.GetAreaCode | auto-selfcheck.go:71-74 | for areas 1..17 the code is the area number up to Sejong (8) and one more from Gyeonggi on, so it lies in 1..18 and is never 9 |
| Areas.AreaCodeIncreasing | auto-selfcheck.go:72 | the location-code table is strictly increasing in the area number |
| Areas.AreaCodeImage | auto-selfcheck.go:72-73 | the codes of the 17 areas are exactly {1..8, 10..18} |
| Areas.AreaOfCode | auto-selfcheck.go:72-73 | the inverse search of the code table returns only an area whose code is the one searched for |
| Areas.AreaOfCodeRoundTrip | auto-selfcheck.go:71-74 | every area is recovered from its location code, so no two areas share a code |
| Areas.AreaOfCodeDomain | auto-selfcheck.go:72 | a code belongs to some area iff it is in 1..18 and not 9 |
| Areas.GetAreaURL | auto-selfcheck.go:77-80 | the host prefix of every area is three lower-case letters |
| Areas.AreaOfURL | auto-selfcheck.go:78-79 | the inverse search of the prefix table returns only an area whose prefix is the one searched for |
| Areas.AreaOfURLRoundTrip | auto-selfcheck.go:77-80 | every area is recovered from its host prefix |
| Areas.AreaURLInjective | auto-selfcheck.go:78 | two areas with the same host prefix are the same area |
| Decimal.FormatInt | auto-selfcheck.go:117 | `%d` writes at least one character, digits only for non-negative numbers, a minus sign before digits for negative ones, no leading zero, exactly `0` for zero, one character exactly for 0..9, and never `&` |
| Decimal.ParseFormatInt | auto-selfcheck.go:117-119 | reading back what `%d` wrote gives the number, negative numbers included |
| Decimal.PadTwoDigits | auto-selfcheck.go:116-119 | `0%d` below 10 and `%d` from 10 on; every code 0..99 becomes exactly two digits whose value is the code |
| SelfCheck.SearchSchoolURL | auto-selfcheck.go:114-120 | the search URL is the fixed prefix, then two digits whose value is the area's location code, then the level, the escaped name and `&loginType=school` |
| SelfCheck.SearchSchoolTail | auto-selfcheck.go:117-119 | the query after the location code always ends in `&loginType=school` |
| SelfCheck.SearchSchoolURLRoundTrip | auto-selfcheck.go:114-120 | area, level (negative levels included) and escaped school name are all read back unchanged from the search URL |
| SelfCheck.FindSchool | auto-selfcheck.go:126-136 | an undecodable answer is a decode error; an empty `schulList` is `InfoNotFound`; the result is Ok iff the answer decodes with at least one candidate, and then it is the first candidate's `orgCode` |
| SelfCheck.FirstCandidateWins | auto-selfcheck.go:136 | two answers that agree on the first candidate give the same result, whatever follows it |
| SelfCheck.FindUserURL | auto-selfcheck.go:141-142 | the lookup URL names the area's own host and the path `/v2/findUser` |
| SelfCheck.FindUserRequest | auto-selfcheck.go:143-152 | the lookup is a JSON POST to that URL whose body has exactly `name`, `birthday`, `orgCode` and `loginType` = `school`, holding the two ciphertexts and the org code |
| SelfCheck.GetStudnetInfo | auto-selfcheck.go:140-168 | a transport failure is returned as that error; an undecodable answer is `InfoNotFound`; otherwise the record has the server's school name, name and token, the area's host prefix and the caller's plain birth date |
| SelfCheck.EndpointRoundTrip | auto-selfcheck.go:142 | an URL built from an area's prefix names that area's host and carries the path unchanged |
| SelfCheck.AddHeader | auto-selfcheck.go:201-202 | adding a header appends the value to those already under the name and leaves the other names alone |
| SelfCheck.ServeyPayloadAnswers | auto-selfcheck.go:175-190 | answers `rspns00`..`rspns15` are "Y", "1", "1", null ×6, "0", null ×6 |
| SelfCheck.ServeyPayloadFields | auto-selfcheck.go:174-192 | `eviceUuid` is empty, `upperToken` is the session token, `upperUserNameEncpt` is the session name |
| SelfCheck.ServeyPayloadKeys | auto-selfcheck.go:173-193 | the payload's keys are the sixteen answer keys and the three others, nothing else |
| SelfCheck.ServeyPayloadSize | auto-selfcheck.go:173-193 | the payload has nineteen distinct keys |
| SelfCheck.ServeyPayloadShape | auto-selfcheck.go:173-193 | the full shape of the payload: its exact key set, its size of 19, each answer and the three session fields |
| SelfCheck.RspnsKeyInjective | auto-selfcheck.go:175-190 | different question numbers name different `rspnsNN` keys |
| SelfCheck.RegisterServeyURL | auto-selfcheck.go:172 | for a session whose prefix belongs to an area, the survey URL names that area's host and the path `/registerServey` (see also `SurveyFollowsLookup`) |
| SelfCheck.ServeyPayload | auto-selfcheck.go:173-193 | the 19-entry payload map; it carries no contract of its own, and `ServeyPayloadShape` (with `ServeyPayloadKeys`, `ServeyPayloadSize`, `ServeyPayloadAnswers`, `ServeyPayloadFields`) states its exact keys and values |
| SelfCheck.AllHealthyRequest | auto-selfcheck.go:172-202 | the survey is a POST to the session's `registerServey` with exactly the headers `Authorization` = the token and `Content-Type` = `application/json`, carrying the survey payload (see `ServeyPayloadShape`) as its body |
| SelfCheck.AllHealthy | auto-selfcheck.go:171-219 | a bad URL is a request error, a transport failure is that error, an answer that `json.Unmarshal` cannot decode into a map (anything but a JSON object or `null`) is a decode error, and the call passes iff none of these happens |
| SelfCheck.AllHealthyIgnoresStatus | auto-selfcheck.go:205-218 | two servers whose answers differ only in the HTTP status give the same outcome |
| SelfCheck.SurveyFollowsLookup | auto-selfcheck.go:165-201 | a session from the lookup submits to the same area's host at `/registerServey`, authorized by and carrying the token and name the lookup answered with |

## Left out

- `Encrypt` (RSA PKCS#1 v1.5 with random padding, then base64) is not modelled. The two ciphertexts are inputs of `GetStudnetInfo`. The fatal exits on a bad embedded key are not modelled either.
- HTTP traffic and the JSON codec are parameters. Each server is a function from the request to a transport outcome, or to a decoded answer. The byte encoding of the request bodies, including the key order `json.Marshal` writes, is not modelled.
- `net/url.QueryEscape` is a parameter of `FindSchool`. `SearchSchoolURLRoundTrip` therefore recovers the escaped name, not the original one.
- The `fmt.Println` of the search URL is left out.
- FindSchool: the error of the `http.Get` is discarded. On a transport failure the code dereferences a nil response and crashes. That path is not modelled; the answer is always a decoded reply.
- Errors from reading the response bodies are discarded in the code. The server function's decoded answer stands for whatever bytes were read.
- GetAreaCode and GetAreaURL index a table and panic for areas outside 1..17. The model requires `IsArea` instead of modelling the panic.
- The level is passed through `%d` unchecked. The model allows any integer and does not restrict it to the five `LEVEL_` constants.
- Go canonicalizes header names. Both names used (`Authorization`, `Content-Type`) are already canonical, so `AddHeader` uses them as they are.
- The example program `SelfCheckFromList.go`, which reads students from a list and loops over them, is not part of this model.
