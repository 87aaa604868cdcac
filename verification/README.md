# SME SecuAware, modelled in Dafny

SME SecuAware is a Next.js web application that helps small and medium
enterprises judge and improve their cyber-security. This project models its
server-side core and one client-side filter:

- **Assessment endpoint** (`/api/assessment`). `calculateAssessment` turns a
  questionnaire into a weighted 0..100 score and a risk level.
  `generateRecommendations` picks fixed advice for weak answers. `GET` lists
  the caller's five latest assessments. `POST` saves a new assessment and
  copies its score onto the user.
- **Page middleware** (`middleware.js`). It lets framework paths, API routes,
  file-like paths and public pages through. Every other page needs a `token`
  cookie with three dot-separated segments; otherwise the browser goes to
  `/login` and a malformed cookie is deleted.
- **Threat alerts** (`/api/threats`). `GET` returns the active alerts for the
  caller's industry, sorted on the severity string and then newest first, at
  most 20. An administrator's `POST` creates an alert. `seedThreats` fills an
  empty collection.
- **Education catalog** (`/api/education`) and **seed**. The published
  articles are narrowed by category and difficulty, newest first, up to a
  limit (0 means none), and returned as cards.
- **Registration and login** (`/api/auth/register`, `/api/auth/login`):
  validation, an account store keyed by the lowercased, trimmed address, and
  the session
  token and cookie.
- **Client article filter** (`EducationCenter`'s `filterContent`): category,
  then difficulty, then a case-insensitive search over title, summary and
  tags.
- **The four Mongoose schemas** (`User`, `Assessment`, `ThreatAlert`,
  `EducationContent`): enumerations, defaults and what `save()` accepts.

How the model is put together:

- The database is one `Store.Database` object with one sequence per
  collection. Handlers that write are methods that modify it and keep
  `Valid()`, which holds what the schemas and the unique email index
  guarantee. Handlers that only read are functions of the collections.
- A user's `_id` is its position in `users`.
- Token extraction and verification from `lib/auth` arrive as an `Http.Auth`
  value. Password hashing, password comparison and token signing are
  function parameters.
- The clock is a `now: nat` parameter.
- `findOne({ email })` passes the filter value through the schema's
  `lowercase` and `trim` setters, as Mongoose does by default, so both the
  duplicate check and the login lookup use the address as it would be stored.
- JavaScript semantics are written out where they decide an outcome:
  - `NaN` scores, which fail the cast when saved.
  - Inherited `Object.prototype` names, which are truthy in the weight table.
  - `Math.round` as half-up rounding of the exact ratio (see "Left out").
  - Falsy empty strings.
  - String lengths in UTF-16 code units, as `.length` and Mongoose's
    `minlength`/`maxlength` count them (`Text.Utf16Length`).
  - MongoDB's string ordering of `severity`, under which `"medium"` sorts
    above `"critical"`.

## Model

| member | source | states |
|---|---|---|
| Scoring.LookupWeight | pages/api/assessment/index.js:8-16 | a key has its own weight exactly when it is one of the seven weighted questions; every own weight is positive and a multiple of 5; an `Object.prototype` name outside the table is told apart |
| Scoring.CalculateAssessment | pages/api/assessment/index.js:7-37 | the loop over the entries leaves the totals that `TotalScore`/`MaxPossibleScore` define, rounds the exact ratio half up, and picks the tier `RiskLevelOf` gives |
| Scoring.AccumulatorsAsSums | pages/api/assessment/index.js:21-26 | with no inherited key names, the two accumulators are the weighted sum of the answers and the sum of the weights present |
| Scoring.FilterKeepsTotal | pages/api/assessment/index.js:22 | dropping the entries without a weight leaves `totalScore` unchanged |
| Scoring.FilterKeepsMax | pages/api/assessment/index.js:22 | dropping the entries without a weight leaves `maxPossibleScore` unchanged |
| Scoring.UnweightedKeysIgnored | pages/api/assessment/index.js:21-28 | keys outside the weight table other than `Object.prototype` names (`dataEncryption`, say) never change the score |
| Scoring.DistinctCounts | pages/api/assessment/index.js:21 | with distinct keys a question is counted once when answered and not at all otherwise |
| Scoring.ValueOfSnoc | pages/api/assessment/index.js:21 | looking up a key after one more entry finds the earlier answer, else the new entry when it has that key |
| Scoring.AnsweredOnce | pages/api/assessment/index.js:21-26 | in a complete questionnaire each weighted question contributes its answer exactly once |
| Scoring.CompleteSums | pages/api/assessment/index.js:18-26 | answering all seven questions gives a weight total of 100 and a total equal to the weighted sum of the answers over 5 |
| Scoring.CompleteScore | pages/api/assessment/index.js:28 | for a complete questionnaire the score is that weighted sum itself (the division by 100 and the rounding cancel) |
| Scoring.PercentOfHundred | pages/api/assessment/index.js:28 | a whole percentage out of 100 is its own `Math.round` result |
| Scoring.TotalBetween | pages/api/assessment/index.js:23-24 | with answers in 1..5 the total lies between a fifth of the weight present and the weight present |
| Scoring.ScoreInRange | pages/api/assessment/index.js:28 | with answers in 1..5 and at least one weighted question, the score is a number in 20..100 |
| Scoring.WeightPresentPositive | pages/api/assessment/index.js:24 | one weighted question makes `maxPossibleScore` positive |
| Scoring.NoWeightedKeyIsNaN | pages/api/assessment/index.js:28 | without any weighted question the score is `0 / 0`, that is `NaN`, and the tier is critical |
| Scoring.InheritedKeyIsNaN | pages/api/assessment/index.js:22-24 | a key such as `toString` picks up an inherited function as its weight and turns total and score into `NaN` |
| Scoring.Percent | pages/api/assessment/index.js:28 | `NaN` exactly when either operand is `NaN` or the maximum is not positive; otherwise the whole number nearest to `100 * total / max`, the upper one on a tie |
| Scoring.RiskBands | pages/api/assessment/index.js:30-34 | low exactly from 80, medium exactly on 60..79, high exactly on 40..59, critical exactly below 40 |
| Scoring.RiskMonotone | pages/api/assessment/index.js:30-34 | a higher score never gives a more severe tier |
| Scoring.LowestAnswersScoreTwenty | pages/api/assessment/index.js:28-34 | answering 1 to all seven questions scores 20, which is critical |
| Scoring.HighestAnswersScoreHundred | pages/api/assessment/index.js:28-34 | answering 5 to all seven questions scores 100, which is low risk |
| Scoring.GenerateRecommendations | pages/api/assessment/index.js:40-83 | each of the three records appears exactly when its answer is present and at most 2; nothing else appears; password, backup, training order; no low priority; the risk level is ignored |
| Scoring.RecommendationsDependOnThreeAnswers | pages/api/assessment/index.js:40-83 | two questionnaires that agree on password policy, backup and training get the same advice, whatever their risk levels |
| Scoring.WorstPasswordAnswerAdvised | pages/api/assessment/index.js:43-53 | a password-policy answer of 1 puts the high-priority password record first |
| AssessmentModel.ValueOf | pages/api/assessment/index.js:43 | `responses[key]` is defined exactly when some entry has that key, and then it is that entry's value |
| AssessmentApi.LatestAssessments | pages/api/assessment/index.js:99-105 | exactly `min(5, n)` assessments where `n` is the number of the caller's stored assessments, all the caller's and all stored, newest first; as a multiset they are among the caller's stored assessments, so none is listed more often than it is stored |
| AssessmentApi.CompletionOrdered | pages/api/assessment/index.js:102 | a list sorted descending on the completion key has each `completedAt` no later than the one before |
| AssessmentApi.LatestAreNewest | pages/api/assessment/index.js:101-103 | one of the caller's assessments is left out only when the list is full and it is no newer than any listed |
| AssessmentApi.RecordScore | pages/api/assessment/index.js:130-133 | the user with that id gets the new score and the assessment time; every other user, and a missing id, is left alone |
| AssessmentApi.RecordScoreKeepsValid | lib/models/User.js:38-43 | writing a score in 0..100 onto a user keeps every user valid and the addresses unique |
| AssessmentApi.Save | pages/api/assessment/index.js:127-133 | the assessment is appended, its owner gets the score and the time, the other collections are untouched, and the store stays valid |
| AssessmentApi.Handle | pages/api/assessment/index.js:85-151 | 401 without a valid session; `GET` gives 200 with the history; `POST` with fewer than 7 entries gives 400; a complete one is saved and recorded on the user (201), or gives 500 when `save()` rejects it; other methods give 405; failures write nothing; the store stays valid |
| AssessmentApi.WeightedKeyCountBound | pages/api/assessment/index.js:110 | each entry answers at most one weighted question |
| AssessmentApi.CompleteSubmissionSaved | lib/models/Assessment.js:9-24 | answering all seven weighted questions within 1..5 passes the length check and yields a saveable assessment with a score in 20..100 |
| AssessmentApi.UnweightedSubmissionRejected | pages/api/assessment/index.js:110-127 | seven entries without a weighted key pass the length check but score `NaN`, which `save()` rejects |
| Gate.Middleware | middleware.js:3-47 | bypassed and public paths pass; otherwise a missing or empty cookie redirects, a cookie with other than two dots redirects and is deleted, and a protected page passes only with two dots |
| Gate.ThreeSegmentsIsTwoDots | middleware.js:35 | `split('.')` gives three pieces exactly when the token has two dots |
| Gate.TwoDotsPass | middleware.js:33-36 | only the shape is checked: the cookie `..` opens every protected page |
| Gate.FaviconCoveredByDot | middleware.js:11-12 | the `/favicon.ico` test is subsumed by the dot test |
| Gate.DottedPathsUnprotected | middleware.js:11 | any path containing a dot passes whatever the cookie |
| ThreatAlertModel.ParseSeverity | lib/models/ThreatAlert.js:13-17 | a severity string is accepted only if it names a severity, and parsing a name gives it back |
| ThreatAlertModel.ParseSeverityName | lib/models/ThreatAlert.js:13-17 | every severity's name parses back to it |
| ThreatAlertModel.RankIsNameOrder | pages/api/threats/index.js:37 | ranks order the severities exactly as their stored names compare as strings |
| ThreatAlertModel.LessIrreflexive | pages/api/threats/index.js:37 | no string sorts before itself |
| ThreatAlertModel.ParseCategory | lib/models/ThreatAlert.js:18-22 | a category string is accepted only if it names a category |
| ThreatAlertModel.ParseCategoryName | lib/models/ThreatAlert.js:18-22 | every category's name parses back to it |
| ThreatAlertModel.ParseTag | lib/models/ThreatAlert.js:23-26 | an industry tag is accepted only if it names one of the five industries or `all` |
| ThreatAlertModel.ParseTags | lib/models/ThreatAlert.js:23-26 | a tag array is accepted element by element, keeping order, or rejected because some element is not allowed |
| ThreatAlertModel.NoTagIsOther | lib/models/ThreatAlert.js:23-26 | no tag names the `other` industry |
| ThreatAlertModel.NewThreatAlert | lib/models/ThreatAlert.js:4-39 | a new alert has the trimmed title, is active, has no expiry, has the system as source, and is stamped with the creation time |
| ThreatsApi.ThreatFeed | pages/api/threats/index.js:29-38 | exactly `min(20, n)` alerts where `n` is the number of relevant stored alerts, each stored, active and relevant to the industry, ordered by severity string descending and then newest first; as a multiset they are among the relevant stored alerts |
| ThreatsApi.SeverityOrdered | pages/api/threats/index.js:37 | a list sorted descending on the severity key has each alert of lower rank, or of the same severity and no newer, than the one before |
| ThreatsApi.CriticalAlertsListedLast | pages/api/threats/index.js:37 | in the feed a critical alert comes after every alert of another severity |
| ThreatsApi.FeedKeepsHighestRanked | pages/api/threats/index.js:37-38 | a relevant alert is left out only when the feed is full of alerts sorted at least as high |
| ThreatsApi.FeedShowsAllWhenFew | pages/api/threats/index.js:29-38 | with at most 20 relevant alerts every one is shown |
| ThreatsApi.OtherIndustrySeesGeneralAlertsOnly | pages/api/threats/index.js:29-36 | a company in `other` sees an alert exactly when it is active and tagged `all` or untagged |
| ThreatsApi.ExpiryIgnored | pages/api/threats/index.js:29-36 | `expiresAt` never changes whether an alert is shown |
| ThreatsApi.BuildAlert | pages/api/threats/index.js:56-65 | the alert is built exactly when severity, category and every industry tag are allowed and the trimmed title and the description are non-empty; it then carries the request's fields, defaults the industries to `all` and the advice to none, and is valid |
| ThreatsApi.DefaultAlertReachesEveryone | pages/api/threats/index.js:61 | an alert created without industries is tagged `all` and reaches every industry |
| ThreatsApi.Publish | pages/api/threats/index.js:65 | a valid alert is appended, the other collections are untouched, and the store stays valid |
| ThreatsApi.Handle | pages/api/threats/index.js:5-74 | 401 without a valid session; `GET` gives 404 for an unknown user, else 200 with the feed; an administrator's `POST` gives 400 when a required field is missing, 500 when `save()` rejects, else 201 and one more alert; any other request gives 405; the store stays valid |
| ThreatsApi.SeedTitlesTrimmed | pages/api/threats/index.js:84-96 | the seeded titles are their own trim |
| ThreatsApi.InitialThreats | pages/api/threats/index.js:82-107 | two alerts, both valid and both tagged `all` |
| ThreatsApi.SeedIdempotent | pages/api/threats/index.js:80-81 | seeding a second time changes nothing, and a seeded collection is never empty |
| ThreatsApi.SeedReachesEveryone | pages/api/threats/index.js:88-100 | every industry sees both seeded alerts |
| ThreatsApi.SeedThreats | pages/api/threats/index.js:77-111 | the alerts are inserted only into an empty collection; the other collections are untouched and the store stays valid |
| EducationContentModel.ParseCategory | lib/models/EducationContent.js:18-22 | an article category is accepted only if it names one |
| EducationContentModel.ParseCategoryName | lib/models/EducationContent.js:18-22 | every category's name parses back to it |
| EducationContentModel.NoCategoryIsAll | components/EducationCenter.js:63-65 | no category is named `all`, so the picker's `all` cannot be confused with a category |
| EducationContentModel.ParseDifficulty | lib/models/EducationContent.js:23-27 | a difficulty is accepted only if it names one |
| EducationContentModel.ParseDifficultyName | lib/models/EducationContent.js:23-27 | every difficulty's name parses back to it and is not `all` |
| EducationContentModel.Card | pages/api/education/index.js:29 | a card carries exactly the selected fields of its article |
| EducationApi.CatalogRecords | pages/api/education/index.js:20-31 | exactly `min(limit, n)` articles where `n` is the number of matching stored articles (`limit` 20 by default; a limit of 0 lists all `n`), each stored, published and matching the query, newest first; as a multiset they are among the matching stored articles |
| EducationApi.CreationOrdered | pages/api/education/index.js:30 | a list sorted descending on the creation key has each `createdAt` no later than the one before |
| EducationApi.CatalogOf | pages/api/education/index.js:20-33 | exactly as many cards as `CatalogRecords` lists (`min(limit, n)`, all `n` for a limit of 0), each the card of a stored, published, matching article, newest first; as a multiset they are among the cards of the matching stored articles |
| EducationApi.CatalogCards | pages/api/education/index.js:28-31 | the cards cut from the kept articles are cards of stored matching articles, in the kept order and within the matching cards as a multiset |
| EducationApi.UnfilteredCatalogListsAllPublished | pages/api/education/index.js:23-31 | with no filter and the limit not reached, every published article is listed |
| EducationApi.CatalogKeepsNewest | pages/api/education/index.js:30-31 | a matching article is left out only when the page is full of articles at least as new |
| EducationApi.UnknownCategoryListsNothing | pages/api/education/index.js:24 | a category value no article can have lists nothing rather than being ignored |
| EducationApi.Handle | pages/api/education/index.js:5-41 | 401 without a valid session; `GET` gives 200 with the catalog; other methods give 405 |
| EducationApi.InitialContent | pages/api/education/index.js:49-77 | three articles, all valid and published |
| EducationApi.SeedIdempotent | pages/api/education/index.js:47-48 | seeding a second time changes nothing, and a seeded collection is never empty |
| EducationApi.SeedEducationContent | pages/api/education/index.js:44-81 | the articles are inserted only into an empty collection; the other collections are untouched and the store stays valid |
| EducationCenter.FilterContent | components/EducationCenter.js:60-81 | a card is shown exactly when it is in the catalog, matches the category unless `all`, matches the difficulty unless `all`, and mentions the lowercased term in its lowercased title, summary or a tag unless the term is empty |
| EducationCenter.FilterContentIsSubsequence | components/EducationCenter.js:61-80 | the shown list is the catalog with cards deleted and the order kept |
| EducationCenter.ClearFiltersShowsAll | components/EducationCenter.js:162-166 | after "Clear Filters" the whole catalog is shown |
| EducationCenter.SearchIgnoresCase | components/EducationCenter.js:71-77 | a search term and its lowercase give the same list |
| EducationCenter.TitleMatchShown | components/EducationCenter.js:72-76 | a card whose title contains the term is shown whenever the pickers allow it |
| EducationCenter.UnknownCategoryShowsNothing | components/EducationCenter.js:63-65 | a category value that names no category empties the list |
| Text.LowerKeepsIncludes | components/EducationCenter.js:72-76 | lowercasing both sides keeps every substring match |
| UserModel.ParseCompanySize | lib/models/User.js:22-26 | a company size is accepted only if it is one of the four bands |
| UserModel.ParseCompanySizeName | lib/models/User.js:22-26 | every band's name parses back to it |
| UserModel.ParseIndustry | lib/models/User.js:27-31 | an industry is accepted only if it is one of the six |
| UserModel.ParseIndustryName | lib/models/User.js:27-31 | every industry's name parses back to it |
| UserModel.NormalizeEmail | lib/models/User.js:4-10 | the stored address is no longer than the input, lowercase and without surrounding white space; an input without surrounding white space is only lowercased |
| UserModel.NormalizeEmailIdempotent | lib/models/User.js:8-9 | normalising a stored address changes nothing |
| UserModel.NewUser | lib/models/User.js:3-54 | a new user has the normalised address and trimmed company name; role and score take the given values or the defaults `owner` and 0; no assessment yet; active |
| UserModel.InsertKeepsUnique | lib/models/User.js:57 | inserting an address not yet stored keeps the index unique |
| UserModel.InsertKeepsValid | lib/models/User.js:3-54 | inserting a valid user into valid users keeps them all valid |
| UserModel.FindByEmail | pages/api/auth/login.js:21 | the first user with exactly that stored address, or none exactly when no user has it |
| UserModel.FindOne | pages/api/auth/login.js:21 | the lookup finds a user whose address is the normalised value, and finds none exactly when no user has it |
| UserModel.FindOneIgnoresPadding | pages/api/auth/register.js:25 | white space around the address does not change what the lookup on the lowercased address finds |
| Text.Utf16Length | pages/api/auth/register.js:20 | `.length` lies between the number of characters and twice that, and equals it exactly when no character is beyond U+FFFF |
| Text.LowerKeepsTrimmed | lib/models/User.js:8-9 | lowercasing neither adds nor removes white space at either end |
| UserModel.FindById | pages/api/threats/index.js:23 | the user at that id, present exactly when the id is in range |
| Store.Database.constructor | lib/models/User.js:57 | an empty database is valid |
| Http.AuthFailure | pages/api/threats/index.js:11-19 | 401 with "Unauthorized" when there is no token, "Invalid token" when it does not verify |
| Http.SessionCookie | pages/api/auth/register.js:57 | the cookie holds the token, is `HttpOnly`, has path `/`, `SameSite=Lax`, lives 7 days, and is `Secure` as asked |
| Accounts.ClaimsOf | pages/api/auth/register.js:47-52 | the token payload is the user's id, address, role and company |
| Accounts.ViewOf | pages/api/auth/register.js:62-68 | the echoed user has id, address, company, role and score, and no password |
| Accounts.SessionFor | pages/api/auth/register.js:54-69 | the token signs the user's claims, and the reply carries it, the echoed user and the cookie |
| RegisterApi.Candidate | pages/api/auth/register.js:34-42 | the document exists exactly when size and industry are allowed; it then has the normalised address, the hash of the password (not the password), the trimmed company, role `owner` and score 25 |
| RegisterApi.CandidateIsNewUser | pages/api/auth/register.js:34-42 | that document is the schema's `new User` with role and score given explicitly |
| RegisterApi.Insert | pages/api/auth/register.js:44 | a document that passes is appended, nothing else changes, and the store stays valid |
| RegisterApi.Register | pages/api/auth/register.js:5-74 | non-`POST` gives 405; a missing field gives 400; a password under 6 UTF-16 code units gives 400; an address whose stored form (lowercased and trimmed) is taken gives 400 "User already exists"; otherwise the account is added with 201 and a session, or nothing is added and the reply is 500 when the document fails the schema's validators; rejections write nothing; the store stays valid |
| RegisterApi.EmojiPasswordLongEnough | pages/api/auth/register.js:20 | three emoji are a password of length 6, as JavaScript counts it, so they pass the length check |
| RegisterApi.PaddedDuplicateRejected | pages/api/auth/register.js:25-28 | a taken address sent with white space around it is found by the duplicate check, as the account that holds it, so the reply is 400 "User already exists" |
| LoginApi.Login | pages/api/auth/login.js:5-60 | non-`POST` gives 405; a missing field gives 400; every other failure is the same 401 "Invalid credentials"; success is 200 for an account whose address is the input lowercased and trimmed and whose hash matches the password, with a session and a cookie that is `Secure` only in production |
| LoginApi.LoginSucceedsIffCredentialsMatch | pages/api/auth/login.js:21-30 | with unique addresses, a login succeeds exactly when some account has the input's address lowercased and trimmed, and a matching hash |
| LoginApi.RegisteredOwnerCanLogIn | pages/api/auth/login.js:21-55 | an account just registered logs in with its address and password, when `compare` accepts a password against its own hash |
| LoginApi.PaddedAddressLogsIn | pages/api/auth/login.js:16-30 | a login with white space around the address has the same outcome as with the address trimmed |

## Left out

- `dbConnect` and the connection to MongoDB are not modelled. Every handler works on the in-memory `Store.Database`.
- A database failure mid-request, other than a schema or index rejection on `save()`, is not modelled; in the source it gives 500.
- Concurrency is not modelled. Every request runs alone, so two registrations racing for one address are not covered.
- `lib/auth` is not part of this model. Token extraction and verification are the `Http.Auth` parameter. Hashing, comparison and signing are function parameters. Token expiry is not modelled.
- `config.matcher` (middleware.js:49-60) decides which paths reach the middleware at all. It is not modelled; `Gate.Middleware` describes every path that reaches it.
- The `Set-Cookie` header is modelled as a `Cookie` record rather than its text. The login header's trailing `Secure;` formatting is not modelled.
- Each Mongoose schema's `createdAt`/`updatedAt` timestamps are not modelled except as the `now` parameter. `completedAt` and `createdAt` are set to `now`.
- `ObjectId`s are not modelled. A user's id is its position in `users`, and ids in tokens are taken as given.
- Response values are modelled as integers only. Fractional or non-numeric values, and Mongoose's cast of numeric strings, are not modelled.
- Scoring.CalculateAssessment / AssessmentApi.Handle: the score rounds the exact ratio half up, where the source rounds the double `(total / max) * 100`. On some partial questionnaires the model's score is one higher: for a total of 46 out of 80 the double is 57.49999999999999, so the source gives 57 and the model 58. Complete questionnaires are exact (`Scoring.CompleteScore`), and the division by 5 of `value * weight` is exact because every weight is a multiple of 5.
- Strict mode is not modelled: Mongoose silently drops response keys the schema does not declare, and that dropping is left out. `ValidResponses` checks only the declared keys, as validation does.
- `Text.Lower` lowercases ASCII letters only. JavaScript's full Unicode case mapping is not modelled.
- `parseInt(limit)` is left out. `EducationApi.CatalogQuery.limit` is already a natural number. A non-numeric limit (`NaN`) and negative limits are not modelled.
- The `select(...)` projection is modelled as `EducationContentModel.Card`. The returned documents' `_id` is omitted.
- The React state, effects and `fetch` of `EducationCenter` are not modelled. Only `filterContent` and the clear-filters values are.
- `tags?.some`: cards always carry an array of tags, as the schema's array default ensures, so the undefined case is not modelled.
- Registration's `password.length` is taken on a string, in UTF-16 code units. Non-string JSON values in request bodies are not modelled; an absent field is the empty string, and both are falsy.
- Mongoose's older behaviour of leaving query filters uncast by setters (before version 5) is not modelled.
- AssessmentModel.ValueOf / Scoring.TotalScore: `Responses` is a sequence of entries that may repeat a key, which a parsed JSON body cannot (`JSON.parse` keeps the last duplicate). On a repeated key the model counts every entry in the totals and `ValueOf` reads the first. The lemmas about complete questionnaires ask for distinct keys (`DistinctKeys`).
- The threats `GET` handler returns whole documents; `_id` and the timestamps are not modelled.
- `ThreatAlertModel.ValidThreatAlert` checks that `recommendations` entries are strings only through their type.
