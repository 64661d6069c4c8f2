# NerualHire front end: a Dafny model

This project models the client of the NerualHire recruiting portal. The
client has a public job board with an apply form. It also has an admin
console with a sign-in page, a dashboard, create and edit pages for job
postings, and a candidate pipeline that moves applications through the
stages applied → screening → interview → hired, or off to rejected.

The model follows the React components and the API module file by file:

- **Pure logic** is written as datatypes and functions, with lemmas about
  them. This covers stage order and labels, application normalisation, tab
  counts, initials, bullet rendering, paste formatting, job cards, dashboard
  statistics, the route guard and the error-message chains.
- **A component's state** (its `useState` hooks) is a class whose fields
  are those pieces of state. Each event handler is a method with a
  `modifies` clause that states the complete new state.
- **Network replies** are parameters of the handlers (`Outcome<T>`: either
  `Ok(data)` or `Err(message)`). A handler that changes state before and
  after its `await` is split into a `Begin` method and a `Settle` method.
- **`localStorage`** is a `map<string, string>`. Axios's default
  `Authorization` header is an `Option<string>`.
- **JavaScript string semantics are written out.** This covers the `\s`
  character class, `trim`, `split`, ASCII `toUpperCase`/`toLowerCase`,
  truthiness, `||` versus `??`, `String(undefined)`, regular-expression
  replacement and splitting, `replace` with a string pattern (first
  occurrence only), and `Object.entries` order.

## Model

| member | source | states |
|---|---|---|
| CandidatesPipeline.IndexOf | src/components/CandidatesPipeline.jsx:84 | `indexOf`: -1 exactly when the stage is absent, otherwise a position holding it with no earlier occurrence |
| CandidatesPipeline.NextStageCases | src/components/CandidatesPipeline.jsx:83-94 | the requested stage is "screening" exactly for applied, "interview" exactly for screening, "rejected" exactly for the Disqualify payload, and no call is made for any other stage (interview, hired, unknown) |
| CandidatesPipeline.NextStageLabelSpec | src/components/CandidatesPipeline.jsx:121-126 | a label exists exactly for a selected application in applied or screening, and it is the label of the stage the move sends it to |
| CandidatesPipeline.NormalizeAll | src/components/CandidatesPipeline.jsx:48-65 | the map succeeds exactly when every record has a stage and a candidate; then one record per input, in order, with the same id and name, a lower-cased stage and the resume path as given |
| CandidatesPipeline.InStage | src/components/CandidatesPipeline.jsx:116-118 | the filter holds exactly the applications of the stage, as a subsequence of the list (original order) |
| CandidatesPipeline.InStageHead | src/components/CandidatesPipeline.jsx:71-74 | the candidate selected after a load is the first application of the list in the active stage |
| CandidatesPipeline.WithStage | src/components/CandidatesPipeline.jsx:101-103 | same length and order; exactly the records with the moved id take the new stage; every other field of every record is kept |
| CandidatesPipeline.Pipeline.constructor | src/components/CandidatesPipeline.jsx:32-35 | no applications, loading, active stage "applied", nothing selected |
| CandidatesPipeline.Pipeline.LoadApplications | src/components/CandidatesPipeline.jsx:42-81 | a fully normalised reply replaces the list and selects the first record in the active stage, if any; a failed call or a record that throws leaves list and selection alone; loading ends either way |
| CandidatesPipeline.Pipeline.MoveToNextStage | src/components/CandidatesPipeline.jsx:83-113 | the request is the computed target stage, or none; local state changes only when the server accepts, then the list is updated and the selection is cleared exactly when the candidate leaves the active tab |
| CandidatesPipeline.Pipeline.SetActiveStage | src/components/PipelineTabs.jsx:24 | a tab click sets the active stage and nothing else |
| CandidatesPipeline.Pipeline.SelectCandidate | src/components/CandidatesPipeline.jsx:159 | choosing a row sets the selection and nothing else |
| PipelineTabs.StageCountExact | src/components/PipelineTabs.jsx:7-9 | a tab's count is the number of applications whose stage is exactly that tab's stage |
| PipelineTabs.TabCountsCover | src/components/PipelineTabs.jsx:7-19 | the five counts never add up to more than the number of applications, and add up to exactly that when every application is in one of the five stages |
| PipelineTabs.Tabs | src/components/PipelineTabs.jsx:16-44 | one tab per stage, in order, with its label and count; highlighted exactly for the active stage; a badge exactly when the count is positive |
| PipelineTabs.ActiveTabsCount | src/components/PipelineTabs.jsx:19 | over distinct stages, one tab is highlighted when the active stage is among them and none otherwise |
| PipelineTabs.ExactlyOneActiveTab | src/components/PipelineTabs.jsx:16-19 | with the active stage among the five, exactly one tab is highlighted and its count is the length of the list shown below it |
| PipelineTabs.ClickTab | src/components/PipelineTabs.jsx:24 | after clicking tab k, tab k and no other is highlighted |
| PipelineTabs.MoveTransfersCount | src/components/CandidatesPipeline.jsx:101-103 | with unique ids, a move takes one from the old stage's count, adds one to the new stage's count, and leaves every other count alone |
| CandidateDetail.FirstCharsSplit | src/components/CandidateDetail.jsx:10 | the first characters of the parts of `split(' ')` are exactly the characters that begin a word, in order |
| CandidateDetail.NameInitials | src/components/CandidateDetail.jsx:10 | the first two word-initial characters, upper-cased; at most two characters |
| CandidateDetail.Initials | src/components/CandidateDetail.jsx:8-11 | "UN" without a candidate or a name, otherwise the name's initials |
| CandidateDetail.MoveButtonInPipeline | src/components/CandidateDetail.jsx:14 | with the pipeline's label, the button appears exactly for applied and screening candidates, and pressing it always leads to a forward request |
| CandidateDetail.DisqualifyPayload | src/components/CandidateDetail.jsx:36 | the payload is the candidate with stage "rejected" and every other field unchanged |
| CandidateDetail.View | src/components/CandidateDetail.jsx:43-100 | the move button reads "Move to " plus the label and is present exactly when `canMoveForward`; the resume viewer is present exactly when the link is non-empty |
| CandidateDetail.PipelineMoveButton | src/components/CandidateDetail.jsx:43-51 | the pipeline's selection shows "Move to Phone Screen" when applied, "Move to Interview" in screening, and no button otherwise |
| CandidateDetail.Disqualify | src/components/CandidateDetail.jsx:33-40 | always asks for "rejected"; the records take that stage only when the server accepts; the selection, the active tab and the loading flag are left as they were |
| CandidateListItem.ListInitials | src/components/CandidateListItem.jsx:7-14 | "??" for an empty name, otherwise the first two word initials upper-cased; at most two characters |
| CandidateListItem.ItemOf | src/components/CandidateListItem.jsx:19-72 | the name or "Unnamed Candidate"; email, phone and resume rows exactly when their fields are non-empty; highlighted exactly when selected |
| CandidateListItem.InitialsAgree | src/components/CandidateListItem.jsx:7-14 | the row and the detail pane show the same initials for a named candidate; "??" and "UN" for an unnamed one |
| CandidateListItem.ResumeRowMatchesViewer | src/components/CandidateListItem.jsx:62-72 | the row offers the resume link exactly when the detail pane embeds the resume viewer |
| Dashboard.ApplicationsList | src/api/api.js:63-66 | the applications call yields a list exactly when the body is a paged object, and the list is its `results` |
| Dashboard.JobsList | src/components/Dashboard.jsx:23 | the jobs are the `results` of a paged body or the items of a bare array, and nothing for any other body |
| Dashboard.FirstFive | src/components/Dashboard.jsx:20-23 | `slice(0, 5)`: a prefix of at most five, the whole list when it is shorter |
| Dashboard.FirstFiveIdempotent | src/components/Dashboard.jsx:20-23 | slicing twice gives what slicing once gives; a list of five or fewer is kept whole |
| Dashboard.WithRawStage | src/components/Dashboard.jsx:39 | keeps exactly the records whose raw stage is the given text, in their original order, as many as there are such records |
| Dashboard.StatsOf | src/components/Dashboard.jsx:34-47 | active jobs and applicants are the list lengths; interviews and offers count the stages "Interview" and "Offer" and never exceed the applicants |
| Dashboard.InterviewsPlusOffers | src/components/Dashboard.jsx:37-46 | interviews and offers together never exceed the applicants |
| Dashboard.LowerCaseStagesNotCounted | src/components/Dashboard.jsx:37-46 | when every stage is lower case, as the pipeline writes them, a counter for a capitalised stage counts nothing |
| Dashboard.OpeningsLabel | src/components/Dashboard.jsx:158 | "Openings" exactly for more than one opening, else "Opening" |
| Dashboard.DashboardPage.constructor | src/components/Dashboard.jsx:8-10 | empty lists, loading |
| Dashboard.DashboardPage.CurrentStats | src/components/Dashboard.jsx:34-47 | the job and applicant counts shown never exceed five |
| Dashboard.DashboardPage.LoadDashboardData | src/components/Dashboard.jsx:13-29 | candidates are set only when both calls succeed with a paged applications body, jobs only after them; each list holds at most five; loading ends |
| Dashboard.FailedFirstLoad | src/components/Dashboard.jsx:24-28 | a first load that fails shows zero for every statistic |
| JobText.ReplaceCrlf | src/components/EditJob.jsx:59 | never longer, keeps the visible text, and leaves text without a CR LF pair unchanged |
| JobText.ReplaceCrlfPair | src/components/EditJob.jsx:59 | a CR LF pair between two texts becomes one LF, and each side is normalised on its own |
| JobText.BulletsKeepLetters | src/components/EditJob.jsx:60 | the global multi-line marker replacement keeps every visible character that is not a list marker, in order |
| JobText.BulletsByLines | src/components/EditJob.jsx:60 | when every line but the last has text, the replacement works line by line: a leading marker with the whitespace around it becomes "• ", and any other line is kept |
| JobText.BlankLineBeforeMarker | src/components/EditJob.jsx:60 | an empty line before a marker line disappears, since the leading `\s*` runs across the line break |
| JobText.FormatPasted | src/components/EditJob.jsx:56-61 | no whitespace at either end; every visible character that is not a marker is kept, in order |
| JobText.FormatPastedByLines | src/components/EditJob.jsx:56-61 | for text whose CRs all start CR LF pairs, with no other line terminator, and whose lines but the last have text: the stored text is the trimmed LF-join of its lines, each with a leading marker made "• " |
| JobText.NoMarkerOnlyNormalized | src/components/EditJob.jsx:56-61 | pasted text without markers is only CRLF-normalised and trimmed |
| JobText.LeadingMarkerBecomesBullet | src/components/EditJob.jsx:60 | a paste beginning with a marker begins with "•" after formatting |
| JobText.SplitLines | src/components/JobDetail.jsx:44 | at least one line, and no line contains LF |
| JobText.SplitLinesIsSplit | src/components/JobDetail.jsx:44 | splitting on CR LF or LF equals splitting on LF and dropping one trailing CR from every part but the last |
| JobText.StripLead | src/components/JobDetail.jsx:48 | removes exactly the leading run of dashes, bullets and whitespace, keeping the visible text after it |
| JobText.RenderBullets | src/components/JobDetail.jsx:42-51 | the items of the text's LF-separated lines (the optional CR before an LF changes nothing), one for every line that is not blank, each without leading marker or whitespace and without trailing whitespace |
| JobText.ItemsAppend | src/components/JobDetail.jsx:45-49 | the filter and the map work line by line: the items of two runs of lines are the items of the first followed by those of the second |
| JobText.RenderBulletsAppend | src/components/JobDetail.jsx:42-51 | text joined at an LF renders as the bullets of the first part followed by those of the second |
| JobText.RenderBulletsLine | src/components/JobDetail.jsx:42-51 | a single line renders as no bullet when blank, and otherwise as its trimmed text without leading markers |
| JobText.RenderBulletsKeepLetters | src/components/JobDetail.jsx:42-51 | the items together keep every visible character of the text that is not a marker |
| JobText.MarkerOnlyLine | src/components/JobDetail.jsx:45-48 | a line holding only "-" renders as one empty item |
| JobText.ReplaceFirstDash | src/components/JobDetail.jsx:120 | the first dash becomes a space and every other character is kept |
| JobCard.Capitalize | src/components/JobCard.jsx:35 | same length; the first character upper-cased, the rest kept |
| JobCard.CapitalizeIdempotent | src/components/JobCard.jsx:35 | capitalising twice is capitalising once |
| JobCard.DetailsPath | src/components/JobCard.jsx:42 | "/jobs/" followed by the decimal id |
| JobCard.DetailsPathInjective | src/components/JobCard.jsx:42 | equal details links mean equal job ids |
| JobCard.Card | src/components/JobCard.jsx:10-59 | badge "Open" or "Closed"; description and location fall back to fixed texts; type capitalised; an apply link exactly for open jobs |
| JobCard.CardConsistent | src/components/JobCard.jsx:12-59 | an apply link exactly when the badge says "Open", extending the details link; different ids give different links |
| JobDetail.BulletSection | src/components/JobDetail.jsx:81-108 | a list section appears exactly when its field is non-empty, with the rendered bullets |
| JobDetail.Page | src/components/JobDetail.jsx:25-148 | a spinner exactly while loading, "not found" exactly for a missing job, otherwise the job's title, status, sections, location, type text and an apply link exactly when open |
| JobDetail.ApplyLinkAsOnCard | src/components/JobDetail.jsx:134-140 | the details page links to the same apply page as the job card |
| JobDetail.JobDetailPage.constructor | src/components/JobDetail.jsx:7-8 | no job, loading |
| JobDetail.JobDetailPage.LoadJob | src/components/JobDetail.jsx:11-20 | a successful fetch sets the job, a failed one keeps it; loading ends |
| JobDetail.OpenPage | src/components/JobDetail.jsx:10-39 | a fresh page whose fetch fails ends on "not found", one whose fetch succeeds shows that job |
| JobForm.Get | src/components/EditJob.jsx:31-39 | `obj[key]`: undefined exactly when the key is absent, otherwise a value stored under it |
| JobForm.Put | src/components/create-job.jsx:23-26 | the spread update keeps existing keys in place with the new value under the named key, and appends a new key at the end |
| JobForm.GetPut | src/components/create-job.jsx:23-26 | the named key then reads the new value and every other key reads as before |
| JobForm.CreateChange | src/components/create-job.jsx:21-27 | the named field takes the checked state or the text; every other field is unchanged |
| JobForm.EditChange | src/components/EditJob.jsx:52-72 | a list field takes its text, formatted when pasted; other fields as on the create page; every other field unchanged |
| JobForm.EditChangeAsCreate | src/components/EditJob.jsx:52-72 | apart from pasted list text, the edit pages and the create page store the same form |
| JobForm.PastedListField | src/components/EditJob.jsx:55-64 | a pasted list field stores the formatter's text: no whitespace at its ends, all its visible text, and, when every line but the last has text, each line's leading marker made "• " |
| JobForm.TruthyField | src/components/EditJob.jsx:89-92 | `data?.[key]` is used exactly when the body is present, has the key, and the value is truthy |
| EditJob.LoadDefaults | src/components/EditJob.jsx:30-40 | exactly the nine form keys, in order, each the job's value under its defaulting rule |
| EditJob.GetLoadDefaults | src/components/EditJob.jsx:30-40 | each form key reads the job's value defaulted with `||`, or with `??` for `is_open` |
| EditJob.LoadKeepsClosed | src/components/EditJob.jsx:39 | a closed job loads closed; a missing or null `is_open` loads open |
| EditJob.LoadDefaultsType | src/components/EditJob.jsx:37 | a missing or falsy type loads as "full-time" |
| EditJob.LoadDefaultsIdempotent | src/components/EditJob.jsx:30-40 | loading a loaded form again changes nothing |
| EditJob.LoadEmptyIsInitial | src/components/EditJob.jsx:9-19 | loading a job without fields gives the initial form |
| EditJob.UpdateErrorMessage | src/components/EditJob.jsx:89-94 | the title error if truthy, else the type error if truthy, else the body's JSON text, else "Failed to update job." |
| EditJob.UpdateErrorMessageNonEmpty | src/components/EditJob.jsx:89-94 | the message is never empty unless the chosen field error is an array |
| EditJob.EditJobForm.constructor | src/components/EditJob.jsx:9-23 | the initial form, loading, no messages |
| EditJob.EditJobForm.LoadJob | src/components/EditJob.jsx:27-47 | success loads the defaulted job; failure keeps the form and shows "Failed to load job details."; loading ends |
| EditJob.EditJobForm.HandleChange | src/components/EditJob.jsx:52-72 | the form takes the edit-page change |
| EditJob.EditJobForm.HandleSubmit | src/components/EditJob.jsx:75-96 | sends the form; success shows "Job updated successfully!", failure shows the error chain's message; never both |
| EditJobPage.FormDataEntries | src/components/edit-job.jsx:71-74 | one entry per form field, in order, holding `String(value)` |
| EditJobPage.FormDataOneEntryPerKey | src/components/edit-job.jsx:71-74 | the entries' names are the form's keys, each once |
| EditJobPage.FormDataOfStrings | src/components/edit-job.jsx:72-74 | a text field is sent exactly as typed |
| EditJobPage.DetailMessage | src/components/edit-job.jsx:84-87 | the body's truthy `detail`, otherwise "Failed to update job. Please check your input." |
| EditJobPage.EditJobFormPage.constructor | src/components/edit-job.jsx:9-23 | the initial form, loading, no messages |
| EditJobPage.EditJobFormPage.LoadJob | src/components/edit-job.jsx:27-37 | success replaces the form wholesale with the reply; failure keeps it and shows the error; loading ends |
| EditJobPage.EditJobFormPage.HandleChange | src/components/edit-job.jsx:43-63 | the form takes the edit-page change |
| EditJobPage.EditJobFormPage.HandleSubmit | src/components/edit-job.jsx:65-89 | sends the FormData entries; success shows " Job updated successfully!", failure the detail message; never both |
| EditJobPage.LoadWithoutType | src/components/edit-job.jsx:29-30 | for a job without a type, the defaulting page holds "full-time" while this page holds no type and sends no type entry |
| CreateJob.BearerFrom | src/components/create-job.jsx:32-36 | "Bearer " plus the stored "access" item, or "Bearer null" when it is missing |
| CreateJob.CreateJobPage.constructor | src/components/create-job.jsx:7-19 | the initial form, no messages |
| CreateJob.CreateJobPage.HandleChange | src/components/create-job.jsx:21-27 | the form takes the create-page change |
| CreateJob.CreateJobPage.HandleSubmit | src/components/create-job.jsx:29-57 | sends the old form with that header; success resets the form and shows the success text, failure keeps it and shows the error; exactly one message is non-empty |
| ApplyForm.ResolveJobId | src/components/ApplyForm.jsx:7 | the prop's job id when truthy, else the route's |
| ApplyForm.FailureMessage | src/components/ApplyForm.jsx:33-47 | the reply's error text, else the failure's message, else the fallback; never empty |
| ApplyForm.ApplyFormPage.constructor | src/components/ApplyForm.jsx:8-14 | the resolved job id, empty fields, no resume, no modal, not submitting |
| ApplyForm.ApplyFormPage.SetFullName | src/components/ApplyForm.jsx:70 | only the name changes |
| ApplyForm.ApplyFormPage.SetEmail | src/components/ApplyForm.jsx:78 | only the email changes |
| ApplyForm.ApplyFormPage.SetPhone | src/components/ApplyForm.jsx:86 | only the phone changes |
| ApplyForm.ApplyFormPage.SelectResume | src/components/ApplyForm.jsx:92 | only the resume changes |
| ApplyForm.ApplyFormPage.CloseModal | src/components/ApplyForm.jsx:117 | only the modal closes |
| ApplyForm.ApplyFormPage.Begin | src/components/ApplyForm.jsx:17-30 | without a resume, the warning modal and no request; otherwise submitting starts with the four form entries |
| ApplyForm.ApplyFormPage.Settle | src/components/ApplyForm.jsx:32-50 | the modal shows and submitting ends; an accepted reply clears the form, any other shows the failure message and keeps it |
| ApplyForm.Submit | src/components/ApplyForm.jsx:17-51 | the server is called exactly when a resume was chosen; a message is always shown |
| Api.Intercept | src/api/api.js:10-17 | a non-empty stored access token is sent as "Bearer " plus it; otherwise the headers are unchanged |
| Api.LoginRole | src/api/api.js:38 | the role lower-cased, "" for a falsy one |
| Api.UserRole | src/api/api.js:47-50 | the stored role lower-cased, "" when none is stored |
| Api.Session.SetAuthToken | src/api/api.js:20-28 | a truthy token is stored and becomes the default header; otherwise both are removed |
| Api.Session.Login | src/api/api.js:31-44 | success writes the tokens as `String` of the reply's fields and the lower-cased role, and sets the default header; failure changes nothing |
| Api.Session.FetchUser | src/api/api.js:47-50 | the role read back from storage, lower-cased |
| Api.InterceptAfterSetAuthToken | src/api/api.js:10-28 | after setting a truthy token, requests carry it; after clearing, headers are sent unchanged |
| Api.FetchUserAfterLogin | src/api/api.js:36-50 | after a login, the user's role is the login's lower-cased role |
| AdminLogin.StoredReply | src/components/AdminLogin.jsx:21-23 | writes the three items as `String` of the reply's fields, with the role as given; other items are kept |
| AdminLogin.AdminLoginPage.constructor | src/components/AdminLogin.jsx:9-10 | no error, not loading |
| AdminLogin.AdminLoginPage.Begin | src/components/AdminLogin.jsx:15-16 | the error is cleared and loading starts |
| AdminLogin.AdminLoginPage.Settle | src/components/AdminLogin.jsx:17-34 | success stores the reply, applies `setAuthToken` and goes to "/dashboard"; failure shows the fixed error and stores nothing; loading ends |
| AdminLogin.AccessTokenAfterLogin | src/components/AdminLogin.jsx:19-25 | a truthy access token stays stored; an undefined one is first written as "undefined" and then removed |
| PrivateRoute.Guard | src/components/PrivateRoute.jsx:5-14 | the children exactly when a non-empty "access" item is stored and the role is exactly "admin"; otherwise a redirect to "/admin" |
| PrivateRoute.GuardRefusals | src/components/PrivateRoute.jsx:9-10 | no "access" item, or the role "Admin", is redirected |
| Header.LogoTarget | src/components/Header.jsx:21 | "/dashboard" exactly for an admin, "/" otherwise |
| Header.ShowLogout | src/components/Header.jsx:27-34 | the logout button exactly for an admin |
| Header.Logout | src/components/Header.jsx:10-13 | storage is emptied, the user is no longer an admin, and the page goes to "/admin" |
| SessionFlows.AdminSignInThenGuard | src/components/PrivateRoute.jsx:6-13 | after an admin sign-in the guard still redirects, since the page writes "access_token" and the guard reads "access"; the header sees an admin exactly for the role "admin" |
| SessionFlows.ApiLoginThenGuard | src/api/api.js:36-38 | after a login through the API module the guard still redirects |
| SessionFlows.RoleCaseDependsOnPath | src/api/api.js:38 | the role "Admin" makes an admin through the API login but not through the admin page |
| SessionFlows.LogoutKeepsDefaultHeader | src/components/Header.jsx:10-13 | after logout the interceptor adds nothing, while the default header still holds the old token |
| JsString.Trim | src/components/JobDetail.jsx:45 | a slice of the text with only whitespace before and after it; no whitespace at either end; the non-whitespace kept; empty exactly for all-whitespace text |
| JsString.JoinSplit | src/components/CandidateDetail.jsx:10 | joining the parts of a split with the separator gives the text back |
| JsString.ToLower | src/components/CandidatesPipeline.jsx:51 | same length, no upper-case letter; each ASCII upper-case letter moves 32 code points up to its lower-case letter, every other character kept |
| JsString.ToUpper | src/components/CandidateDetail.jsx:10 | same length, no lower-case letter; each ASCII lower-case letter moves 32 code points down to its upper-case letter, every other character kept |
| JsString.DecimalRoundTrip | src/components/JobCard.jsx:42 | the decimal text of a number reads back as that number |
| JsString.IntToDecimalInjective | src/components/JobCard.jsx:42 | different integers have different decimal texts |

## Left out

- HTTP transport: every reply is a parameter of the handler that awaits it. The axios instance, its base URL and its timeouts are not modelled.
- Axios merges its default headers with the headers the interceptor sets. The model keeps the two apart (`Session.defaultAuth` and `Intercept`) and does not model the merge.
- Rendering, styling and markup: only the decisions a view makes are modelled (which rows, labels, links and buttons appear, and their text).
- Navigation and routing: a handler returns its navigation target as text. `App.js`, `Layout`, `JobList`, `CandidateList`, `HeaderBar`, `SidebarWidget` and `JobApplyPage` only pass data through and are not part of this model.
- The `setTimeout` redirect after a create and the dates formatted with `toLocaleDateString` depend on the clock and the locale.
- Console logging is not modelled.
- Interleaving of asynchronous handlers: each handler runs atomically, except the admin sign-in and the apply form, whose state changes before the `await` are split into `Begin` and `Settle`. React's stale closures and batched updates are not modelled.
- Case mapping is ASCII only. `toUpperCase` and `toLowerCase` on other letters are not modelled.
- JavaScript strings are sequences of UTF-16 code units; the model's strings are sequences of characters. `charAt(0)` in `JobCard.Capitalize` therefore differs for characters outside the Basic Multilingual Plane.
- The text `JSON.stringify` produces for an error body is a parameter (`ErrorData.json`).
- Form values are text, booleans, integers, null and arrays of text. Floating-point numbers, nested objects and arrays of other values are not modelled.
- `Object.entries` lists integer-like keys first. The model keeps insertion order, which matches the forms' own keys.
- Missing text fields of a job or a candidate are modelled as "". A job's type is always text, so the exception `charAt` throws on a missing type is not modelled.
- The "new" indicator of a candidate row is not modelled: no normalised record carries the field, so it is never shown.
- The apply call's reply body is a JsStr error field. A reply with a null body is not modelled.
- The reset of the file input element after a successful application is DOM state and is not modelled.
- A dashboard applications body whose `results` is not an array is modelled as malformed.
- The code has no token refresh on 401, no following of pagination cursors, no sorting by application date, no in-flight set per row, no way to restore a rejected candidate, no making resume links absolute, and no move from interview to hired; none of these is modelled.
