# Thesis-Check core, modelled in Dafny

This project models the rule engines and state machines of the Thesis-Check
system, a FastAPI backend plus a React client used to check graduation and
course papers. It covers:

- **Backend rules:**
  - the role hierarchy and the permission predicates, with the decorators that guard the routes;
  - registration, login and password change over an in-memory user store;
  - the paper, parameter and user routes over in-memory tables;
  - the field bounds of the Pydantic request schemas;
  - the check pipeline (`submit_check` and `_perform_check`) with its title, format and content rules;
  - the similarity and keyword helpers;
  - the extraction of title, text, headings, fonts and page setup from a `.docx` paragraph list;
  - file-name validation.
- **Client logic:**
  - the role checks and the file-type check;
  - the regex validators;
  - error classification;
  - CSV export (a field containing a comma, a quote or a line feed is quoted, with inner quotes doubled);
  - text formatting;
  - the Redux auth reducer;
  - the WebSocket reconnect counter;
  - the retrying request loop;
  - the keyed loading map;
  - the notification and toast lists;
  - the route guard and the role-gated menu;
  - the upload pickers;
  - the check submit and check status pages;
  - the parameter list page.

Everything is stated as pure functions over immutable datatypes; the two
algorithms with loops (the retrying request and the tally of a batch of
settled requests) are methods with loop invariants.

Everything outside the program is a parameter of the model:

- the clock;
- the outcome of each HTTP request;
- the password hash and the token encoder;
- the AI service;
- the TF-IDF cosine score and the Chinese tokeniser;
- the current year.

Python floats and JavaScript numbers are Dafny `real`s, computed exactly.

The client and the server are modelled separately, each as its code is
written. Where they disagree, lemmas state the disagreement, for example:

- the check request the client sends is refused by the server's schema (`CheckSubmitPage.SubmitLaws`);
- the client reads a task id under a key the server does not send (`CheckSubmitPage.AcceptedWithoutTaskId`).

## Model

| member | source | states |
|---|---|---|
| Permissions.HierarchyLaws | backend/app/core/permissions.py:11-47 | The five role levels are 1..5, strictly increasing from student to admin, and no two roles share a level. `has_role` is membership, so an empty list admits nobody. `has_minimum_role(u, m)` holds iff the role of `u` is among the roles at or above `m`. It is reflexive, monotone in the minimum, and always met by an admin. |
| Permissions.RolesAtLeast | backend/app/core/permissions.py:34-47 | The roles whose level reaches a minimum are exactly the roles listed. |
| Permissions.RequireRoles | backend/app/core/permissions.py:50-76 | No user gives 401, which is checked before the role; a role outside the list gives 403; otherwise the handler's own result is returned. |
| Permissions.RequireMinimumRole | backend/app/core/permissions.py:79-105 | No user gives 401; a level below the minimum gives 403 naming the minimum role; otherwise the handler runs. |
| Permissions.DecoratorsAgree | backend/app/core/permissions.py:50-105 | Guarding by the minimum role admits exactly whom guarding by the list of roles at or above it admits. |
| Permissions.AccessLaws | backend/app/core/permissions.py:108-153 | For two different users, `can_modify_user` is `has_minimum_role` of the current user against the target role. So a user may modify themself and any peer, and an admin may modify anyone. A teacher or above may access every paper; a student may access exactly the papers they wrote. |
| UserModel.ParseRole | backend/app/models/user.py:11-17 | A text names a role iff it is one of the five enum values; parsing that value gives back the role. |
| UserModel.RoleValuesRoundTrip | backend/app/models/user.py:11-17 | The five role values are pairwise distinct, and each parses back to its role. |
| UserModel.FindUser | backend/app/models/user.py:24-26 | A lookup by id finds a stored user with that id, and finds nothing iff no stored user has it. |
| UserModel.NextId | backend/app/models/user.py:24 | The auto-increment id exceeds every stored id, so a new row never reuses one. |
| CheckModel.ParseCheckType | backend/app/models/check.py:11-16 | A text is a check type iff it is `title`, `format`, `content` or `full`. |
| CheckModel.ParseIssueLevel | backend/app/models/check.py:36-41 | A text is an issue level iff it is `critical`, `error`, `warning` or `info`. |
| CheckModel.ParseCheckStatus | backend/app/models/check.py:44-49 | A text is a check status iff it is `pending`, `processing`, `completed` or `failed`. |
| CheckModel.EnumValuesExact | backend/app/models/check.py:11-49 | Every enum value parses back to its member, and the status values are exactly the four statuses. |
| CheckModel.CountLevel | backend/app/services/check_service.py:150-156 | A per-level count is at most the number of issues, and is zero iff no issue has that level. |
| CheckModel.StatisticsSumToTotal | backend/app/services/check_service.py:150-156 | The critical, error, warning and info counts add up to the number of issues. |
| CheckModel.CountLevelAppend | backend/app/services/check_service.py:150-156 | Counting over a concatenation of issue lists adds the counts of the parts. |
| CheckService.SubmitCheck | backend/app/services/check_service.py:50-69 | A paper missing from the table its type selects gives NotFound; otherwise the new result is PENDING with progress 0.0, no issues and no statistics, and records the paper, type, check type and submitter. |
| TitleStage.TitleLengthIssues | backend/app/services/check_service.py:183-199 | A title shorter than 5 or longer than 100 characters gets exactly one TITLE_FORMAT warning; a length in 5..100 gets none. |
| TitleStage.SimilarPrevious | backend/app/services/check_service.py:201-207 | The similar previous titles all reach the 0.7 threshold and come in descending order of similarity. |
| TitleStage.DuplicateIssuesOf | backend/app/services/check_service.py:209-217 | There is one TITLE_DUPLICATE issue per similar title, carrying its similarity as confidence; it is an ERROR iff the similarity exceeds 0.9, else a WARNING. |
| TitleStage.DuplicateTitleIssues | backend/app/services/check_service.py:205-217 | At most three duplicate issues are reported, taken from the most similar titles first, each at least 0.7 similar, with the ERROR/WARNING split at 0.9. |
| IssueCounts.ErrorsOrWarnings | backend/app/services/check_service.py:184-217 | Issues that are all errors or warnings add nothing to the critical and info counts. |
| TitleStage.AiTitleIssues | backend/app/services/check_service.py:219-235 | Each AI remark on the title becomes one TITLE_FORMAT warning with the remark as its description, in order. |
| TitleStage.PresentTitleIssues | backend/app/services/check_service.py:183-237 | A non-empty title yields no critical and no info issue, at most three errors, and only title issues. |
| TitleStage.CheckTitle | backend/app/services/check_service.py:168-237 | A missing title yields exactly the single critical "title not found" issue; the critical count is 1 iff the title is missing; there are never info issues and never more than three errors. |
| FormatStage.NonStandardFonts | backend/app/services/check_service.py:259-262 | The fonts flagged are exactly the listed fonts outside 宋体, Times New Roman, 黑体 and Arial; a list without repeats gives flags without repeats. |
| FormatStage.FontIssues | backend/app/services/check_service.py:259-269 | There is one INFO font issue per non-standard font, in the order of the font list. |
| FormatStage.MarginIssues | backend/app/services/check_service.py:247-256 | A left margin below 1800000 EMU gives exactly one FORMAT_PAGE warning; a margin at or above it gives none. |
| FormatStage.HeadingIssues | backend/app/services/check_service.py:271-280 | Fewer than three headings give exactly one FORMAT_HEADING warning; three or more give none. |
| IssueCounts.CountUniform | backend/app/services/check_service.py:150-156 | A list whose issues all share one level counts its full length at that level and zero at every other. |
| IssueCounts.CountThree | backend/app/services/check_service.py:150-156 | The per-level counts of three concatenated stage lists are the sums of their counts. |
| FormatStage.CheckFormat | backend/app/services/check_service.py:240-282 | The format stage raises (None) iff the first section's width, height or left margin is missing. Otherwise its warnings are one for a small margin plus one for fewer than three headings, its infos are one per non-standard font, and it has no critical or error issue. |
| FormatStage.FontsReportedOnce | backend/app/services/check_service.py:259-269 | A non-standard font used anywhere in the paragraphs is reported, and reported exactly once. |
| ContentStage.DuplicateRateIssues | backend/app/services/check_service.py:315-339 | A duplicate rate above 15 gives one CRITICAL issue, one in (10, 15] gives one WARNING, anything else or a failed call gives none; the confidence is rate/100. |
| ContentStage.ContentLengthIssues | backend/app/services/check_service.py:289-299 | Text shorter than 1000 characters gives exactly one CONTENT_LOGIC error; longer text gives none. |
| ContentStage.AiContentIssues | backend/app/services/check_service.py:301-313 | Each AI content remark becomes one CONTENT_LOGIC warning, with its location defaulting to 未知 and its description defaulting to empty. |
| ContentStage.CheckContent | backend/app/services/check_service.py:285-341 | The content stage has one error iff the text is short, one critical iff the rate exceeds 15, and one warning per AI remark plus one for a rate in (10, 15]; it has no info issue. |
| CheckService.Fail | backend/app/services/check_service.py:160-164 | A failure appends the write FAILED/0.0, keeps no issues, and changes nothing in the record but status and progress. |
| CheckService.PerformCheck | backend/app/services/check_service.py:86-164 | The run ends COMPLETED or FAILED, and FAILED exactly when parsing or the format stage raises. The last write is the final state. A completed run has progress 100, total_issues equal to the number of issues and statistics counted from them. A failed run ends at 0.0 with no issue stored. Fields other than status, progress, total and statistics are unchanged. Its writes are exactly those `CheckProgress.RunWrites` describes, and the statistics of a completed run add up to total_issues. |
| CheckProgress.RunWrites | backend/app/services/check_service.py:106-164 | The first write is PROCESSING/10, the last is COMPLETED/100 or FAILED/0.0 as the run fails or not, and every write in between is PROCESSING. Progress strictly increases up to a completion, and up to the final write of a failure. Writes 40, 70 and 90 appear iff their stage ran. |
| CheckService.Complete | backend/app/services/check_service.py:146-156 | Completion appends COMPLETED/100 and sets total_issues and the per-level statistics from the issues, changing nothing else; the four per-level counts sum to total_issues. |
| CheckProgress.StageWrites | backend/app/services/check_service.py:119-137 | The stage writes are PROCESSING writes strictly between 10 and 100, strictly increasing; write 40 appears iff the title stage runs, and 70 and 90 iff the format and content stages run without a failure. |
| CheckProgress.WritesFramed | backend/app/services/check_service.py:110-148 | Framing the stage writes between the initial 10 and the final 100 keeps progress strictly increasing and adds no other PROCESSING write. |
| CheckService.FullCheckCriticals | backend/app/services/check_service.py:173-181 | A full check on a parsed document with a readable left margin completes with as many critical issues as there are missing titles and excessive duplicate rates, counting 1 for each that holds. See also backend/app/services/check_service.py:320-328. |
| Similarity.Jaccard | backend/app/utils/similarity.py:95-120 | Jaccard similarity is 0.0 when either text is empty; otherwise it is the size of the intersection of the two token sets over the size of their union, and it lies in [0, 1]. |
| Similarity.JaccardSymmetric | backend/app/utils/similarity.py:95-120 | Jaccard similarity does not depend on the order of its arguments. |
| Similarity.JaccardSelf | backend/app/utils/similarity.py:106-120 | A non-empty text that yields at least one token is 1.0 similar to itself. |
| Similarity.JaccardZeroIffDisjoint | backend/app/utils/similarity.py:106-120 | For two non-empty texts, Jaccard similarity is 0 iff their token sets are disjoint. |
| Similarity.Candidates | backend/app/utils/similarity.py:142-164 | Every candidate kept is scored against an item with a non-empty title and reaches the threshold; every item that reaches it is kept. |
| Similarity.FindSimilarTitles | backend/app/utils/similarity.py:123-169 | An empty query or list gives []. Each result carries the original item with combined = 0.7·cosine + 0.3·Jaccard at or above the threshold, and every qualifying item is returned. The result is a permutation of the candidates, in input order, sorted by non-increasing combined score; candidates with equal scores keep their input order. |
| Similarity.CandidatesOrder | backend/app/utils/similarity.py:142-164 | The candidate list follows the items' order: the candidates of a concatenation are the concatenation of the candidates, and one item contributes its scored form when kept and nothing otherwise. |
| Similarity.SimilarTitlesTies | backend/app/utils/similarity.py:167 | Two results with the same combined score appear in their order among the candidates. |
| Similarity.KeptScoreMeaning | backend/app/utils/similarity.py:145-164 | A kept result has a non-empty title, its cosine and Jaccard scores against the query, and their 0.7/0.3 weighted sum, which reaches the threshold. |
| Similarity.MaxCosine | backend/app/utils/similarity.py:188-192 | The running maximum is non-negative, at least every reference's cosine score, and either 0 or one of those scores. |
| Similarity.DuplicateRate | backend/app/utils/similarity.py:172-194 | An empty text or reference list gives 0.0; otherwise the rate is 100 times the largest cosine score over the references (or 0). |
| Keywords.FilterWords | backend/app/utils/similarity.py:215-216 | The filtered words are exactly the tokens longer than one character that are not stopwords, each kept as often as it occurs. |
| Keywords.RankWords | backend/app/utils/similarity.py:218-226 | The ranking lists each filtered word once, by non-increasing frequency. Words of equal frequency keep the order of their first occurrences. |
| Keywords.FilterFirstIndex | backend/app/utils/similarity.py:216 | Filtering keeps the relative order of the first occurrences of the kept tokens. |
| Keywords.RankingLength | backend/app/utils/similarity.py:218-224 | The ranking has exactly one entry per distinct kept token. |
| Keywords.RankingTies | backend/app/utils/similarity.py:218-224 | Ranked words of equal frequency in the token list keep the order of their first occurrences in it. |
| Keywords.ExtractKeywords | backend/app/utils/similarity.py:197-226 | Empty text gives []. The keywords are distinct tokens of the text, each longer than one character and not a stopword. They come by non-increasing frequency, and equal frequencies keep first-occurrence order. Their number is what the slice `[:top_n]` leaves of the distinct kept tokens: min(top_n, count) for top_n ≥ 0, and max(0, count + top_n) for negative top_n. |
| Keywords.ExtractKeywordsAreTop | backend/app/utils/similarity.py:218-226 | A qualifying word left out of the keywords is no more frequent than any keyword that was kept, and if it ties with a kept keyword it occurs first later in the text: the `top_n` cut keeps the earlier word of a tie. |
| BatchScores.Enumerate | backend/app/utils/similarity.py:87 | Enumeration pairs each score with its position. |
| BatchScores.BatchSimilarity | backend/app/utils/similarity.py:56-92 | An empty query or list, or a failure in the vectoriser, gives []. Otherwise there is exactly one (index, score) pair per text, each index below the number of texts and paired with its own score, so the result is a permutation of the enumerated scores. It is ordered by non-increasing score, and equal scores keep index order. |
| BatchScores.PairTies | backend/app/utils/similarity.py:87-88 | In a stably sorted enumeration, two pairs with equal scores appear in increasing index order. |
| StableSort.WithKeyMember | backend/app/utils/similarity.py:167 | The elements of one key are exactly the list's elements carrying that key. |
| StableSort.WithKeyAppend | backend/app/utils/similarity.py:167 | Selecting one key's elements distributes over concatenation. |
| StableSort.Insert | backend/app/utils/similarity.py:167 | Inserting a later item into a sorted list keeps it sorted, adds exactly that item, and puts it behind every earlier item with the same key. |
| StableSort.SortByKeyDesc | backend/app/utils/similarity.py:88 | `sort(key=..., reverse=True)` yields a permutation of the input with non-increasing keys. For every key value, the items with that key keep their input order. The same sort serves the title search and the keyword ranking. |
| StableSort.KeyClassesDetermine | backend/app/utils/similarity.py:167 | Two lists with non-increasing keys that hold the same items, in the same order, for every key are equal. |
| StableSort.StableOrderUnique | backend/app/utils/similarity.py:167 | Any stable descending arrangement of a list is the model's sort, so the sorted result is fully determined. |
| StableSort.WithKeyPrecedes | backend/app/utils/similarity.py:167 | Between two items of the same key, the order in the key's selection is their order in the list. |
| StableSort.StableTies | backend/app/utils/similarity.py:167 | Two items with equal keys appear in the sorted list in the order they had in the input. |
| Docx.FirstNonBlank | backend/app/utils/docx_parser.py:35-38 | The scan stops at the first paragraph whose stripped text is non-empty, and every paragraph before it is blank. |
| Docx.GetTitle | backend/app/utils/docx_parser.py:28-38 | The title is "" iff every paragraph is blank; otherwise it is the stripped text of the first non-blank paragraph. |
| Docx.Texts | backend/app/utils/docx_parser.py:47 | The texts are the paragraph texts, one per paragraph, empty ones included, in order. |
| Docx.JoinLength | backend/app/utils/docx_parser.py:47 | Joining n texts with a separator adds n−1 separators to their total length. |
| Docx.AllTextLength | backend/app/utils/docx_parser.py:40-47 | The full text is every paragraph's text plus one newline between consecutive paragraphs, so its length is fixed by theirs. |
| Docx.HeadingLevel | backend/app/utils/docx_parser.py:92-98 | The level is 1, 2 or 3 by the first of "Heading 1", "Heading 2", "Heading 3" that occurs in the style name, else 0. |
| Docx.ParserEdgeCases | backend/app/utils/docx_parser.py:92-211 | Because the heading test is by substring, "Heading 10" is level 1 and "Heading 4" is level 0. A square page is reported as Landscape (line 170). A blank paragraph contributes no keyword candidates and does not use up one of the three paragraphs (line 208). |
| Docx.HeadingsFromSound | backend/app/utils/docx_parser.py:90-105 | Every heading listed comes from a paragraph whose style name contains "Heading", with that paragraph's index, text and level. |
| Docx.HeadingsFromOrdered | backend/app/utils/docx_parser.py:90-105 | Headings are listed in strictly increasing paragraph index. |
| Docx.HeadingsFromComplete | backend/app/utils/docx_parser.py:90-105 | Every paragraph with a heading style is listed. |
| Docx.GetHeadings | backend/app/utils/docx_parser.py:81-107 | The headings are exactly the paragraphs whose style contains "Heading", in document order. |
| Docx.GetPageSetup | backend/app/utils/docx_parser.py:154-171 | The setup is read from the first section and fails when its width or height is missing. The orientation is Portrait iff width < height. |
| Docx.RunFontNames | backend/app/utils/docx_parser.py:184-185 | Only non-empty font names are collected from the runs. |
| Docx.FontNames | backend/app/utils/docx_parser.py:183-185 | Font names are gathered over all paragraphs and runs, and none is empty. |
| Docx.CollectNewIsDedup | backend/app/utils/docx_parser.py:180-194 | The seen-set loop computes exactly the first-occurrence deduplication of the names. |
| Docx.GetFontsFirstOccurrence | backend/app/utils/docx_parser.py:173-194 | `get_fonts` lists every font name used, each once, in order of first occurrence. |
| Docx.LongWords | backend/app/utils/docx_parser.py:210 | The words kept are exactly those longer than two characters. |
| Docx.DocumentKeywords | backend/app/utils/docx_parser.py:196-214 | At most ten distinct keywords, each longer than two characters and drawn from the first three non-blank paragraphs; fewer than ten only when there are no more distinct candidates. |
| Docx.CandidatesAreLong | backend/app/utils/docx_parser.py:207-211 | Every keyword candidate is longer than two characters. |
| PosixPath.PartsShape | backend/app/utils/file_handler.py:40 | `Path(filename)` splits a POSIX path at its slashes. Every component it keeps is non-empty, is not `.`, and contains no slash. |
| PosixPath.PartsAppend | backend/app/utils/file_handler.py:40 | Joining two paths with a slash concatenates their component lists, so repeated slashes, `.` components and a trailing slash add nothing. |
| PosixPath.BaseName | backend/app/utils/file_handler.py:40 | The `name` of a path contains no slash and is never `.`. |
| PosixPath.BaseNameIsLastPart | backend/app/utils/file_handler.py:40 | The `name` is the last kept component, and it is empty exactly when the path keeps no component ("", "/", ".", "./"). |
| PosixPath.BaseNameOfJoin | backend/app/utils/file_handler.py:40 | The name of `a/b` is the name of `b`, unless `b` keeps no component, in which case it is the name of `a`. |
| PosixPath.BaseNameOfSegment | backend/app/utils/file_handler.py:40 | A slash-free text is its own name, unless it is empty or `.`, whose name is empty. |
| PosixPath.BaseNameIgnoresDotComponents | backend/app/utils/file_handler.py:40 | Appending `/.` or `/`, or writing an inner `/` as `/./`, leaves the name unchanged. |
| FileHandler.ValidateIgnoresDotComponents | backend/app/utils/file_handler.py:54-60 | For a non-empty name, appending `/.` or `/`, or writing an inner `/` as `/./`, leaves the validation verdict unchanged, error message included. |
| FileHandler.TrailingDotJudgedByName | backend/app/utils/file_handler.py:54-60 | `stem.ext/.` (for example `x.docx/.`) is accepted exactly when `.ext` lower-cased is an allowed extension, as `stem.ext` is. |
| FileHandler.Suffix | backend/app/utils/file_handler.py:40 | The suffix is a dot followed by a dot-free tail of the name, and is empty exactly when the last dot is missing, first or final. |
| FileHandler.ExtensionOfStemAndExt | backend/app/utils/file_handler.py:30-40 | The extension of `stem.ext` is `.ext` lower-cased. |
| FileHandler.NoExtensionCases | backend/app/utils/file_handler.py:30-40 | A name without a dot, or a hidden file like `.docx`, has no extension. |
| FileHandler.ValidateFile | backend/app/utils/file_handler.py:43-60 | An empty filename is refused before the extension is examined. Otherwise the file passes iff its lower-cased extension is .docx, .doc or .pdf. Every refusal is a 400. See also backend/app/utils/file_handler.py:16. |
| FileHandler.ValidateStemAndExt | backend/app/utils/file_handler.py:58-60 | For `stem.ext`, acceptance depends only on the lower-cased `.ext`, so case does not matter. See also backend/app/utils/file_handler.py:16. |
| FileHandler.GenerateUniqueFilename | backend/app/utils/file_handler.py:63-77 | A generated name starts with the timestamp and an underscore and ends with the original's lower-cased extension. |
| FileHandler.GeneratedNameKeepsExtension | backend/app/utils/file_handler.py:63-77 | The extension of a generated name is the extension of the original. |
| FileHandler.SaveUploadFile | backend/app/utils/file_handler.py:80-130 | A save succeeds iff the file is valid and at most MAX_UPLOAD_SIZE bytes. A validation error is raised unchanged; an oversized file gives the wrapped 400 whose detail is "文件保存失败: 400: " followed by the size-limit detail, because the wrapper formats the caught exception as "<status>: <detail>". A success returns the size and, without a custom name, a name keeping the extension. |
| FileHandler.SizeLimitBoundary | backend/app/utils/file_handler.py:119-121 | A valid file of exactly 52428800 bytes is saved; one byte more is refused. |
| AuthService.Register | backend/app/services/auth_service.py:19-60 | A taken username gives Conflict, checked before the email; a taken email gives the second Conflict. Registration succeeds iff username, email and phone are all free. The new user is appended as a STUDENT with the hashed password. |
| AuthService.RegisterPreservesUnique | backend/app/services/auth_service.py:34-41 | A successful registration keeps usernames, emails and phones unique in the store. See also backend/app/models/user.py:25-27. |
| AuthService.Matches | backend/app/services/auth_service.py:78-83 | The users matched by an identifier are exactly those whose username or email equals it. |
| AuthService.Login | backend/app/services/auth_service.py:63-101 | An unknown identifier, and a single match whose password does not verify, give Unauthorized with the shared message, and every Unauthorized carries that message. Two or more matching rows give an internal error. The login succeeds exactly when one row matches and its password verifies. A success returns a matching user whose password verifies, a token signed over `str(id)`, and the type "bearer". |
| AuthService.TokenSubjectIsId | backend/app/services/auth_service.py:93 | The token subject is the decimal text of the user id and reads back as that id. |
| AuthService.LoginAfterRegister | backend/app/services/auth_service.py:19-101 | Right after registering, logging in with the same username and password returns the new user's bearer token. |
| AuthService.ChangePassword | backend/app/services/auth_service.py:103-132 | A wrong old password gives BadRequest and no change; otherwise only the password changes, to the hash of the new one. |
| AuthService.PasswordLaws | backend/app/services/auth_service.py:85-129 | A wrong password for a known user gives exactly the answer an unknown user gets. After a successful change the new password verifies against the stored hash. |
| PaperModel.ParsePaperStatus | backend/app/models/paper.py:11-18 | A text is a paper status iff it is one of the six enum values. |
| PaperModel.ParsePaperKind | backend/app/api/v1/papers.py:122 | A paper type is accepted iff it is `graduation` or `course`. See also backend/app/api/v1/papers.py:202. |
| PaperModel.NextPaperId | backend/app/models/paper.py:25-50 | The auto-increment id exceeds every id in the table. |
| PaperModel.Find | backend/app/api/v1/papers.py:207-212 | A lookup by id returns a stored paper with that id, and nothing iff none has it. |
| PaperModel.FindAppended | backend/app/api/v1/papers.py:207-212 | A paper appended under a fresh id is found by that id. |
| PaperModel.Without | backend/app/api/v1/papers.py:246-253 | Deleting keeps exactly the papers with other ids. |
| PapersApi.ParseKindFilter | backend/app/api/v1/papers.py:122 | An absent `paper_type` lists both tables. A present one is accepted iff it names a paper kind, and anything else is refused with 422. See also backend/app/api/v1/papers.py:138, 162. |
| PapersApi.PathJoin | backend/app/api/v1/papers.py:48-49 | The stored path ends with the stored file name. |
| PapersApi.Upload | backend/app/api/v1/papers.py:29-115 | An upload succeeds iff the form is complete, the file validates and its size is within the limit. Complete means a non-empty title and, on the course route, a non-empty course and semester, since the form parser takes an empty value as missing; an incomplete form gives 422. The paper is a DRAFT by the caller, department and major fall back to the caller's, and it is appended to its own table under a fresh id. |
| PapersApi.Filter | backend/app/api/v1/papers.py:142-146 | A listed paper is the caller's own unless the caller is a teacher or above, and has the requested status when one is given. Each such paper is listed exactly as often as it is stored, and no other paper is listed. See also backend/app/api/v1/papers.py:166-170. |
| PapersApi.Items | backend/app/api/v1/papers.py:151-158 | Each paper becomes one list item, in table order. See also backend/app/api/v1/papers.py:175-182. |
| PapersApi.TableItems | backend/app/api/v1/papers.py:138-182 | The items from one table all have its type, respect the status filter and, below teacher, the caller's authorship. Every qualifying paper appears, every item summarises a qualifying paper, and there is one item per qualifying row. |
| PapersApi.Listing | backend/app/api/v1/papers.py:138-184 | Without a type filter all graduation papers precede all course papers. Every item respects the filters and visibility, every qualifying paper appears, and every item summarises a qualifying paper of a requested table. The length is the number of qualifying rows in the requested tables, which is what `total` reports. |
| PapersApi.ParseStatusFilter | backend/app/api/v1/papers.py:123 | A status filter is absent, or must be a paper status (else 422). |
| PapersApi.GetPapers | backend/app/api/v1/papers.py:119-196 | The list succeeds iff page ≥ 1, 1 ≤ page_size ≤ 100 and the filters parse. total is the listing's length, total_pages is ceil(total/page_size), and items is the listing's slice [(page−1)·page_size, page·page_size). |
| PapersApi.Lookup | backend/app/api/v1/papers.py:202-215 | An unknown type gives 422; a missing id gives NotFound; otherwise the paper is the one stored under that id. |
| PapersApi.GetPaper | backend/app/api/v1/papers.py:199-221 | A missing paper gives 404 before access is checked; then the paper is returned iff `can_access_paper` holds, else 403. |
| PapersApi.DeletePaper | backend/app/api/v1/papers.py:224-253 | A missing paper gives 404 first. Then only the author or an admin may delete; the paper leaves its table and the other table is unchanged. |
| PapersApi.StoreLaws | backend/app/api/v1/papers.py:29-253 | An uploader can fetch the paper they just uploaded and finds it in their unfiltered list. After a deletion, fetching that paper gives 404 to every reader. For a teacher or above the unfiltered list is every graduation paper followed by every course paper. |
| CommonSchemas.ValidatePagination | backend/app/schemas/common.py:16-19 | Pagination is accepted iff page ≥ 1 and 1 ≤ page_size ≤ 100, and the values are kept as given; a refusal is a 422. |
| CommonSchemas.PageCount | backend/app/schemas/common.py:27 | total_pages = (total + page_size − 1) // page_size is the least page count covering all items (the ceiling). See also backend/app/api/v1/papers.py:194. |
| CommonSchemas.PageItems | backend/app/api/v1/papers.py:186-195 | A page holds at most page_size items, those at offsets from (page−1)·page_size on. A page past the end is empty, and a full page has exactly page_size items. |
| CommonSchemas.PagesArePrefix | backend/app/api/v1/papers.py:186-195 | The first n pages concatenated are the list's first n·page_size items. |
| CommonSchemas.PagesCoverList | backend/app/api/v1/papers.py:186-195 | The pages up to total_pages, concatenated, give back the whole list. |
| CommonSchemas.PaginationLaws | backend/app/schemas/common.py:16-27 | The defaults, page 1 and page size 20, are valid. Any page after the last is empty (the slicing is at backend/app/api/v1/papers.py:186-195). |
| ParameterSchemas.ParameterCreateErrors | backend/app/schemas/parameter.py:9-22 | The field errors are empty iff name ≤ 100 characters, the duplicate rate is in [0, 100], every threshold is ≥ 0 and the scope is global, department or major. |
| ParameterSchemas.ValidateParameterCreate | backend/app/schemas/parameter.py:9-22 | A creation request is accepted unchanged iff it meets those bounds; otherwise it gets a 422. |
| ParameterSchemas.ValidateParameterUpdate | backend/app/schemas/parameter.py:25-38 | An update is accepted iff every field present meets the creation bound; absent fields are unconstrained. |
| ParameterSchemas.SchemaLaws | backend/app/schemas/parameter.py:9-38 | With a short enough name, the defaults validate: 15.0, thresholds 0/3/10/20 and 0/1/3/5, scope global. No order is enforced between the grade thresholds, so even a reversed set validates. An update with no fields validates. |
| ParametersApi.FindParam | backend/app/api/v1/parameters.py:65-66 | A lookup returns a stored parameter with that id, and nothing iff none has it. |
| ParametersApi.Replace | backend/app/api/v1/parameters.py:76-80 | Writing a row back replaces the rows with its id and leaves every other row as it was. See also backend/app/api/v1/parameters.py:102-106. |
| ParametersApi.FindAfterReplace | backend/app/api/v1/parameters.py:76-80 | After writing a row back it is what a lookup finds, and ids stay unique. See also backend/app/api/v1/parameters.py:102-106. |
| ParametersApi.FindFirst | backend/app/api/v1/parameters.py:65-66 | A stored id is found, and with unique ids it finds that very row. |
| ParametersApi.NextParamId | backend/app/api/v1/parameters.py:30-37 | The new id exceeds every stored id. |
| ParametersApi.Create | backend/app/api/v1/parameters.py:20-39 | Schema errors come first (422), then a caller below director gets 403. A success appends the row with the request's values, created_by the caller, unlocked, with no locker. See also backend/app/models/parameter.py:37. |
| ParametersApi.ApplyUpdate | backend/app/api/v1/parameters.py:76-77 | Each field present in the update is written, all eight thresholds included. Every absent field, and the id, creator and lock fields, keep their values. |
| ParametersApi.WriteLaws | backend/app/api/v1/parameters.py:30-77 | Creation keeps parameter ids unique. An empty update changes nothing, and applying an update twice is applying it once. |
| ParametersApi.Update | backend/app/api/v1/parameters.py:54-82 | The checks run in order: 422 for a bad request, 403 below director, 404 for a missing id, 403 for a locked row (changing nothing). Otherwise the row gets the update applied and nothing else changes. |
| ParametersApi.Lock | backend/app/api/v1/parameters.py:85-108 | 403 below dean before the lookup, 404 for a missing id. Otherwise the row is locked by the caller at the given time, whatever its state, with the message 参数已锁定. |
| ParametersApi.Unlock | backend/app/api/v1/parameters.py:111-133 | 403 below dean before the lookup, 404 for a missing id. Otherwise the row is unlocked with locker and time cleared, whatever its state. |
| ParametersApi.LockLaws | backend/app/api/v1/parameters.py:72-133 | After a lock, every valid update by a director or above is refused as locked. After an unlock, every valid update by a director or above succeeds. Locking a locked row succeeds and records the new locker. |
| UsersApi.SelectUsers | backend/app/api/v1/users.py:42-47 | The users selected are exactly those matching the role filter and the department filter, each only when given. |
| UsersApi.FiltersCompose | backend/app/api/v1/users.py:44-47 | Filtering by role and then by department is filtering by both at once: the filters combine conjunctively. |
| UsersApi.GetUsers | backend/app/api/v1/users.py:20-64 | A bad page, page size or role gives 422; then a caller below teacher gets 403. The call succeeds exactly when none of these applies. On success total is the number selected, total_pages is its ceiling over page_size, and items is the requested slice of the selection. |
| UsersApi.GetUser | backend/app/api/v1/users.py:67-84 | Reading another user below teacher gives 403, before the lookup; otherwise the user is returned iff present, else 404. |
| UsersApi.ApplyUserUpdate | backend/app/api/v1/users.py:110-117 | A given role is written; department, major and nickname are written only when truthy; identity, contact details and password never change. |
| UsersApi.ReplaceUser | backend/app/api/v1/users.py:110-120 | Writing a user back replaces the rows with its id and leaves the others. |
| UsersApi.UpdateUserRole | backend/app/api/v1/users.py:87-122 | A bad role gives 422, then a non-admin gets 403. The update succeeds iff the target exists, and then stores and returns the updated user. |
| UsersApi.UpdateLaws | backend/app/api/v1/users.py:87-122 | An update without a role and with only empty or missing texts changes nothing. A role update keeps usernames, emails and phones unique. |
| UsersApi.WithoutUser | backend/app/api/v1/users.py:146-149 | Deleting keeps exactly the users with other ids. |
| UsersApi.DeleteUser | backend/app/api/v1/users.py:125-149 | A non-admin gets 403, then an admin deleting themself gets 403, both before the lookup. Deletion succeeds iff the target exists, removing exactly it. |
| UsersApi.DeleteThenGone | backend/app/api/v1/users.py:67-84 | After a deletion the user reads as missing, and the deleting admin is still present. See also backend/app/api/v1/users.py:125-149. |
| UserSchemas.ValidateUserCreate | backend/app/schemas/user.py:10-18 | Registration data is accepted unchanged iff username is 3–50 characters, the email is valid and password is 6–50. Optional phone must be ≤ 20, department and major ≤ 100, nickname ≤ 50. |
| UserSchemas.UserLoginErrors | backend/app/schemas/user.py:21-24 | A login request is valid iff its password has at least 6 characters. |
| UserSchemas.PasswordUpdateErrors | backend/app/schemas/user.py:43-46 | Each of the old and new password is flagged iff shorter than 6 characters. |
| UserSchemas.ProfileUpdateErrors | backend/app/schemas/user.py:35-40 | A profile update is valid iff each field present respects its bound (nickname 50, phone 20, department and major 100). |
| UserSchemas.EmptyProfileUpdateValid | backend/app/schemas/user.py:35-40 | Every profile field is optional. |
| UserSchemas.ParseUserUpdate | backend/app/schemas/user.py:27-32 | Every field of the admin update is optional. A role, when given, must be one of the five values (else 422); the texts are taken as given. |
| PaperSchemas.ValidateGraduationPaper | backend/app/schemas/paper.py:10-15 | A graduation paper is accepted unchanged iff its title is ≤ 255 and department and major, when given, are ≤ 100. |
| PaperSchemas.ValidateCoursePaper | backend/app/schemas/paper.py:37-44 | A course paper additionally requires course ≤ 100 and semester ≤ 50. |
| PaperSchemas.ValidatePreviousPaper | backend/app/schemas/paper.py:68-75 | A previous paper is accepted iff its title is ≤ 255, author and department are ≤ 100, and the year is in 1900..2100. |
| PaperSchemas.PaperLaws | backend/app/schemas/paper.py:10-75 | A course paper is valid iff its graduation-paper fields are valid and its course and semester fit. Years 1900 and 2100 are accepted; 1899 and 2101 are refused. |
| CheckSchemas.ValidateCheckSubmit | backend/app/schemas/check.py:10-15 | A check request is accepted iff paper_type is exactly `graduation` or `course` and the check type, when given, is a check type. The check type defaults to FULL, and template_id is optional and kept. |
| CheckSchemas.MissingPaperTypeRefused | backend/app/schemas/check.py:13 | A request without a paper type is refused. |
| Text.FirstIndexAppend | backend/app/utils/similarity.py:219-224 | Appending never moves an element's first occurrence, and a new element first occurs where it was appended. |
| Text.DedupFirstOccurrence | backend/app/utils/similarity.py:219-224 | The de-duplicated list orders the words by their first occurrences, as the insertion order of the frequency dict does. |
| Text.DistinctCard | backend/app/utils/similarity.py:219-224 | A list without repeats is as long as the set of its elements, so the frequency dict has one entry per distinct word. |
| Common.FlatMapAppend | frontend/src/utils/export.js:95-100 | Concatenating per-element contributions distributes over concatenation of the input. |
| Common.PyOr | backend/app/services/auth_service.py:53 | Python's `a or b` on optional text: `a` when it is non-empty, else `b`. |
| ClientConstants.AgreesWithServer | frontend/src/utils/constants.js:11-120 | ROLE_LEVELS gives every role the backend level, and its keys are exactly the five role values. CHECK_STATUS holds exactly the four backend statuses, each with a display name. Every grade level, and nothing else, has both a name and a colour, and the four levels are distinct. The client default size limit equals the server limit of 52428800. Every client file type is a server extension, but `.doc` is accepted only by the server. |
| ClientAuth.LevelOf | frontend/src/utils/constants.js:11-17 | A role's level is at most 5. It is 0 iff the role is missing or not one of the five names, and otherwise it is the backend hierarchy's level for that role. See also frontend/src/utils/auth.js:50-57. |
| ClientAuth.HasPermission | frontend/src/utils/auth.js:26-42 | A falsy role fails; admin passes everything; with an array, the role must be listed; with a single role, the levels are compared with unknown roles at 0. |
| ClientAuth.HasMinRole | frontend/src/utils/auth.js:50-57 | A passing role is always truthy. |
| ClientAuth.CheckLaws | frontend/src/utils/auth.js:26-57 | For a single required role, `hasMinRole` and `hasPermission` give the same answer. For real users both agree with the server check `has_minimum_role`. Admin passes an array check even when the array does not list admin. A missing or unrecognised required role is met by any non-empty role. |
| ClientAuth.ClientExtension | frontend/src/utils/auth.js:80 | The client's extension is a dot followed by the dot-free text after the last dot. |
| ClientAuth.CheckFileType | frontend/src/utils/auth.js:78-82 | A missing file or name fails; otherwise the file passes iff its lower-cased extension is listed. |
| ClientAuth.ClientExtensionOfStemAndExt | frontend/src/utils/auth.js:80 | The client extension of `stem.ext` is `.ext` lower-cased. |
| ClientAuth.DotlessNameAcceptedByClientOnly | frontend/src/utils/auth.js:78-82 | A file named just `docx` passes the client's check but is refused by the server. See also backend/app/utils/file_handler.py:40, 58-60. |
| Validators.YearRange | frontend/src/utils/validators.js:18 | A four-digit text matches YEAR iff its value is in 1900..2099. |
| Validators.ClientYearWithinServerBounds | frontend/src/utils/validators.js:18 | Every year the client accepts is within the server's 1900..2100. See also backend/app/schemas/paper.py:73. |
| Validators.Year2100RefusedByClientOnly | frontend/src/utils/validators.js:18 | "2100" is refused by the client although the server accepts 2100. See also backend/app/schemas/paper.py:73. |
| Validators.LeadingLetters | frontend/src/utils/validators.js:20 | The count covers exactly the leading ASCII letters. |
| Validators.CourseCodeMatchesRegex | frontend/src/utils/validators.js:20 | The left-to-right course-code check accepts exactly what `^[A-Z]{2,4}\d{3,4}$` (case-insensitive) matches: some split into 2–4 letters then 3–4 digits. |
| Validators.EmailMatchesRegex | frontend/src/utils/validators.js:8 | The direct e-mail check accepts exactly what the EMAIL pattern matches: a non-empty local part, one `@`, and a domain ending in a dot and two or more letters. |
| Validators.PatternCases | frontend/src/utils/validators.js:10-16 | PHONE accepts 13800138000 and refuses 12345678901. STUDENT_NUMBER accepts 20210001 and refuses 1234567. USERNAME accepts user_123 and refuses ab and user@name. PASSWORD accepts password123 and refuses all digits or all letters. These are the cases of frontend/src/tests/utils/validators.test.js:11-31. |
| Validators.EmailCases | frontend/src/utils/validators.js:8 | EMAIL accepts test@example.com and refuses invalid-email. See also frontend/src/tests/utils/validators.test.js:6-9. |
| Validators.CustomValidatorCases | frontend/src/utils/validators.js:58-67 | whitelist refuses exactly a non-empty unlisted value; confirmPassword refuses exactly a non-empty value that differs from the password. See also frontend/src/utils/validators.js:127-134. |
| Validators.Length | frontend/src/utils/validators.js:88-92 | The length rule keeps min and max; its message is the given one, or else a default naming both bounds. |
| ErrorHandler.StatusMessage | frontend/src/utils/errorHandler.js:19-37 | A listed status gets its table message; any other status gets a message naming the status. See also frontend/src/utils/errorHandler.js:53-56. |
| ErrorHandler.GetErrorMessage | frontend/src/utils/errorHandler.js:44-69 | No error gives 未知错误. A non-empty message without "Error" is returned verbatim, ahead of the status. Then a status goes through the table, then the network and timeout messages, else the generic fallback. The result is never empty. |
| ErrorHandler.MessageExamples | frontend/src/utils/errorHandler.js:25-50 | A 404 reads 请求的资源不存在. "Network Error" with status 500 gets the 500 message, since the status is looked at before the network check. An unknown status is named in the message. A custom message without "Error" wins over any HTTP status. |
| ErrorHandler.GetErrorType | frontend/src/utils/errorHandler.js:76-100 | The kind is network iff the message is "Network Error" or the code is ECONNABORTED. Otherwise it is auth iff 401/403, validation iff 400/422 and server iff ≥ 500, else unknown; precedence runs in that order. |
| ErrorHandler.IsRetryableError | frontend/src/utils/errorHandler.js:107-112 | An error is retryable iff its kind is network or server. |
| ErrorHandler.RetryableErrors | frontend/src/utils/errorHandler.js:76-112 | Retryable means a network failure or a status ≥ 500; 400, 401, 403, 404 and 422 are never retried. |
| ErrorHandler.HandleBatchErrors | frontend/src/utils/errorHandler.js:139-158 | success + failed is the number of results, and failed is the number of listed errors. Each rejected index is listed exactly once, in ascending order, with its message. |
| CsvExport.CellText | frontend/src/utils/export.js:23-33 | null and undefined become the empty text; an object becomes its JSON; anything else its String(). |
| CsvExport.DoubleQuotes | frontend/src/utils/export.js:36 | Doubling quotes leaves quote-free text unchanged and never shortens it. |
| CsvExport.EscapeField | frontend/src/utils/export.js:35-37 | A field without `,`, `"` or newline is emitted verbatim; otherwise it is wrapped in quotes. |
| CsvExport.UndoubleDouble | frontend/src/utils/export.js:36 | Undoubling the doubled quotes recovers the text. |
| CsvExport.EscapeRoundTrip | frontend/src/utils/export.js:35-37 | Reading a field back (a quoted field with its doubled quotes undone, a plain field as it stands) gives the original field. |
| CsvExport.ReadPlain | frontend/src/utils/export.js:35-40 | An unquoted field runs to the next comma. |
| CsvExport.ReadQuotedDoubled | frontend/src/utils/export.js:36 | A doubled-and-closed field reads back as the original text, leaving the rest. |
| CsvExport.ReadPlainField | frontend/src/utils/export.js:39 | A comma-free plain field reads back as itself. |
| CsvExport.ReadFieldEscaped | frontend/src/utils/export.js:35-39 | Any escaped field reads back as the original text, followed by what came after it. |
| CsvExport.EscapeAll | frontend/src/utils/export.js:22-40 | Each field is escaped on its own, in column order. |
| CsvExport.RecordRoundTrip | frontend/src/utils/export.js:22-40 | Parsing a comma-joined record of escaped fields gives back exactly the fields. |
| CsvExport.RowFields | frontend/src/utils/export.js:21-41 | A row yields one field per column, each the text of the row's value under that column's key. |
| CsvExport.RowRecordRoundTrip | frontend/src/utils/export.js:21-41 | A data row's record parses back to one field per column, holding each cell's text. |
| CsvExport.Titles | frontend/src/utils/export.js:18 | The header lists the column titles in order. |
| CsvExport.HeaderNotEscaped | frontend/src/utils/export.js:18 | Titles are not escaped, so a title with a comma splits into two header fields. |
| CsvExport.Lines | frontend/src/utils/export.js:44 | Each record is preceded by a newline. |
| CsvExport.JoinAsLines | frontend/src/utils/export.js:44 | Joining the header and records with "\n" puts the header first and each record after its own newline (no CRLF). |
| CsvExport.Records | frontend/src/utils/export.js:21-41 | There is one record per data row, in order. |
| CsvExport.ExportToCsv | frontend/src/utils/export.js:11-52 | Missing or empty data produces nothing. Otherwise the file is the BOM, the header, then one line per row. |
| CsvExport.ExportColumns | frontend/src/utils/export.js:95-100 | A column is exported iff its dataIndex and title are truthy and its key is not `action`; each becomes (dataIndex, title). |
| CsvExport.ExportColumnsIsFlatMap | frontend/src/utils/export.js:95-100 | The exported list is each column's contribution, concatenated in table order. |
| CsvExport.ExportColumnsOrder | frontend/src/utils/export.js:95-100 | The exported list keeps the table's order and duplicates: the selection of a concatenation is the concatenation of the selections, and one column contributes (dataIndex, title) when it passes the filter and nothing otherwise. |
| CsvExport.ExportTableData | frontend/src/utils/export.js:88-115 | Empty data gives success false with 没有数据可导出, and a format other than csv or json gives 不支持的导出格式, with no download. csv gives the CSV file of the exported columns under `filename.csv`. |
| ClientFormat.FormatDateTime | frontend/src/utils/format.js:9-12 | A falsy date, 0 included, is shown as `-`; otherwise the date formatter decides. |
| ClientFormat.FormatPercent | frontend/src/utils/format.js:48-52 | Only null or undefined gives `-`; any number, 0 included, is shown ×100 with a `%`. |
| ClientFormat.FormatNumber | frontend/src/utils/format.js:59-62 | Only null or undefined gives `-`. |
| ClientFormat.TruncateText | frontend/src/utils/format.js:70-74 | Falsy text gives `-`. Text within maxLength is unchanged; longer text becomes its first maxLength characters followed by `...`. |
| ClientFormat.FormatLaws | frontend/src/utils/format.js:9-74 | A zero date shows `-`, while a zero percentage does not. A truncated non-empty text is at most maxLength + 3 long, and never longer than the original unless it was cut. Truncating an already truncated text changes nothing. |
| UsersClient.FilterParams | frontend/src/api/users.js:6-15 | The parameters kept are exactly those whose value is not '', null or undefined, in order. |
| UsersClient.FilterParamsIdempotent | frontend/src/api/users.js:8-13 | Filtering twice is filtering once. |
| UsersClient.FalsyValuesKept | frontend/src/api/users.js:9 | Only '', null and undefined are dropped; 0, false and NaN are falsy but kept. |
| UsersClient.AllKeptUnchanged | frontend/src/api/users.js:8-13 | Parameters with no empty value pass unchanged. |
| AuthSlice.Reduce | frontend/src/store/authSlice.js:24-82 | Each action changes only the fields its case names. A login clears the error and later stores the access token. A rejected login or profile fetch records the message. A finished logout drops both the token and the user, whether or not the server call succeeded. |
| AuthSlice.ReducerLaws | frontend/src/store/authSlice.js:43-80 | Only a fulfilled login or a settled logout touches the token. After either outcome of a logout the visitor is signed out, has no role and is not loading. A profile fetch keeps a pending error, while a new login clears it. |
| AuthSlice.LoginThenRole | frontend/src/store/authSlice.js:43-62 | A login alone authenticates without a role. The role appears only once the profile fetch is fulfilled. |
| WebSocket.ConnectUrl | frontend/src/hooks/useWebSocket.js:30-31 | The address is the URL, then `?token=`, then the token; a missing token is spelled `null`. |
| WebSocket.HandleClose | frontend/src/hooks/useWebSocket.js:56-71 | A close always marks the socket disconnected. It schedules a reconnect and bumps the counter iff reconnecting is on and the counter is below the limit. It shows the failure iff the counter has reached the limit. Otherwise it does nothing. |
| WebSocket.Step | frontend/src/hooks/useWebSocket.js:28-94 | Opening resets the counter. A message that does not parse changes nothing, and one that parses is kept and forwarded. Disconnecting drops the socket without touching the counter. A reconnect is only ever scheduled by a close with reconnecting on. |
| WebSocket.CounterBounded | frontend/src/hooks/useWebSocket.js:62-63 | Over any run of events the reconnect counter never exceeds the attempt limit. |
| WebSocket.ReconnectsBounded | frontend/src/hooks/useWebSocket.js:62-70 | Without a successful open, at most `limit − counter` reconnects are scheduled. |
| WebSocket.NoReconnectWhenOff | frontend/src/hooks/useWebSocket.js:17 | With reconnecting off, no reconnect is ever scheduled. See also frontend/src/hooks/useWebSocket.js:62. |
| WebSocket.DisconnectStillReconnects | frontend/src/hooks/useWebSocket.js:62-67 | An explicit disconnect leaves the counter as it was, so the close it causes still schedules a reconnect. See also frontend/src/hooks/useWebSocket.js:89-94. |
| WebSocket.SendMessage | frontend/src/hooks/useWebSocket.js:80-86 | Data is sent iff the socket is open, and then it is sent unchanged. |
| WebSocket.NothingSentAfterDisconnect | frontend/src/hooks/useWebSocket.js:81-94 | After a disconnect nothing is sent. |
| RetryRequest.Run | frontend/src/hooks/useRequest.js:33-127 | At most `maxRetries + 1` calls are made, or exactly one when retrying is off. Every call but the last failed with a retryable error. A result is the last call's success, and a thrown error is the last call's failure that may not be retried. When every call fails retryably, exactly `maxRetries + 1` calls are made. The k-th delay is `retryDelay·2^(k−1)`. The error state is the thrown error, and loading ends false when it was shown. No call at all happens only when `maxRetries` is negative. |
| Loading.InitialLoading | frontend/src/hooks/useLoading.js:8-10 | The global flag starts at the given state and no key is loading. |
| Loading.SetLoading | frontend/src/hooks/useLoading.js:12-26 | A non-empty key sets only that key's flag. No key, or the empty key, sets only the global flag. |
| Loading.IsLoading | frontend/src/hooks/useLoading.js:28-33 | A non-empty key is loading iff it was set to true. Otherwise the answer is the global flag. |
| Loading.LoadingLaws | frontend/src/hooks/useLoading.js:12-33 | Starting makes a key loading and stopping makes it not loading. Neither changes any other non-empty key, and a keyed start leaves the global flag alone. The empty key is falsy, so it acts on the global flag. |
| Loading.WithLoading | frontend/src/hooks/useLoading.js:40-47 | The wrapped outcome is returned unchanged, whether a result or a throw. Afterwards the key is not loading, and every other non-empty key is as before. |
| CheckStatusPage.LoadFulfilled | frontend/src/pages/Check/CheckStatus.jsx:23-34 | A fetched status always replaces the status. A falsy progress becomes 0, and a missing stage becomes the fetched-stage text. A result id or error is taken only when truthy, and an earlier one is kept otherwise. |
| CheckStatusPage.LoadFailed | frontend/src/pages/Check/CheckStatus.jsx:35-37 | A failed fetch sets a truthy error and changes nothing else. |
| CheckStatusPage.OnMessage | frontend/src/pages/Check/CheckStatus.jsx:42-48 | Each field is overwritten only when the message carries it: status, stage, result id and error when truthy, and progress whenever it is defined, zero included. |
| CheckStatusPage.ViewOf | frontend/src/pages/Check/CheckStatus.jsx:53-90 | The success view shows iff the status is completed and a result id is present. The failure view shows iff the status is failed, with the error or a fallback text. Everything else shows the progress view with the current stage and progress. |
| CheckStatusPage.StateLaws | frontend/src/pages/Check/CheckStatus.jsx:12-48 | The page opens on the progress view at 0 with the preparing stage. A message with no fields leaves the state unchanged, and receiving the same message twice is receiving it once. Once known, a result id is never lost, by fetch, failure or message. |
| CheckStatusPage.ViewLaws | frontend/src/pages/Check/CheckStatus.jsx:26-90 | A later "processing" message takes the page from the success view back to progress. A completed status without a result id still shows progress. A fetched answer without a status overwrites a failed status, so the failure view turns into progress. |
| CheckStatusPage.FromServer | backend/app/schemas/check.py:55-60 | The server's status answer carries a status and a progress, but no stage, result id or error field. |
| CheckStatusPage.FetchedCompletionShowsProgress | frontend/src/pages/Check/CheckStatus.jsx:26-31 | A completed check fetched from the server still shows the progress view, because the answer never carries a result id. See also frontend/src/pages/Check/CheckStatus.jsx:53; backend/app/schemas/check.py:55-60. |
| CheckStatusPage.ChannelAddress | frontend/src/pages/Check/CheckStatus.jsx:41 | The channel address is the WebSocket base, then `/check/`, then the task id. |
| CheckStatusPage.ChannelConnects | frontend/src/pages/Check/CheckStatus.jsx:41-50 | The page connects to that address with the token appended, under the hook's default reconnect options. See also frontend/src/hooks/useWebSocket.js:31. |
| CheckSubmitPage.DigitRun | frontend/src/pages/Check/CheckSubmit.jsx:46 | The length of the leading run of decimal digits. |
| CheckSubmitPage.ParseInt | frontend/src/pages/Check/CheckSubmit.jsx:46 | `parseInt` gives NaN iff the text is empty or does not start with a digit. Otherwise it gives a non-negative whole number. |
| CheckSubmitPage.ParseIntOfNatToString | frontend/src/pages/Check/CheckSubmit.jsx:46 | Parsing the decimal text of a number gives back that number. |
| CheckSubmitPage.Submit | frontend/src/pages/Check/CheckSubmit.jsx:42-58 | A request is sent iff a template was chosen, carrying the parsed paper id and the form's values. The page navigates iff the request was accepted, to the status route followed by the returned task id. A missing template gives the required-template notice, and a refusal gives the failure notice. Submitting always ends. See also frontend/src/pages/Check/CheckSubmit.jsx:110-114. |
| CheckSubmitPage.PaperIdSentAsNumber | frontend/src/pages/Check/CheckSubmit.jsx:46 | A route id written in decimal is sent as that number. |
| CheckSubmitPage.AsServerBody | backend/app/schemas/check.py:10-15 | The body the server parses exists iff the paper id is a whole number. Its paper type is then absent (empty) and its template is the form's. |
| CheckSubmitPage.SubmitLaws | frontend/src/pages/Check/CheckSubmit.jsx:42-86 | The initial form has no template, so submitting it sends nothing. Every body the page does send fails the server validation, because it carries no paper type (backend/app/schemas/check.py:13). |
| CheckSubmitPage.AcceptedWithoutTaskId | frontend/src/pages/Check/CheckSubmit.jsx:52 | An acceptance without a `task_id`, as the server's result answer is, navigates to `/check/status/undefined`. See also backend/app/api/v1/check.py:17-40. |
| Notifications.KeyAt | frontend/src/components/NotificationProvider/index.jsx:41 | Every notification key starts with `notification_`. |
| Notifications.Show | frontend/src/components/NotificationProvider/index.jsx:29-72 | A type other than success, error, info or warning throws at the toast call before the list is touched, so nothing is shown and nothing is kept; the type defaults to info. Otherwise the new unread entry goes first, with the configured kind, message and description, and the list is cut to the 50 most recent. The older entries follow in their order. The display uses the same key and kind, with the duration defaulting to 4.5 and the placement to top right. |
| Notifications.ShowKinds | frontend/src/components/NotificationProvider/index.jsx:30-43 | An omitted type shows an info notification, and a misspelt type such as "Success" shows nothing. |
| Notifications.Remove | frontend/src/components/NotificationProvider/index.jsx:118-123 | Removing keeps every entry in place and marks as read exactly those with the key. |
| Notifications.MarkAllAsRead | frontend/src/components/NotificationProvider/index.jsx:128-130 | Every entry is kept and marked read. |
| Notifications.ClearAll | frontend/src/components/NotificationProvider/index.jsx:135-138 | The list becomes empty. |
| Notifications.UnreadCount | frontend/src/components/NotificationProvider/index.jsx:143-145 | The unread count never exceeds the number of entries. |
| Notifications.UnreadCountExtremes | frontend/src/components/NotificationProvider/index.jsx:143-145 | The count is zero iff every entry is read, and equals the length iff none is. |
| Notifications.RemoveLaws | frontend/src/components/NotificationProvider/index.jsx:118-123 | Removing never raises the unread count, and removing twice is removing once. |
| Notifications.ShowAddsOneUnread | frontend/src/components/NotificationProvider/index.jsx:60-69 | Below the cap, showing a notification of a known type adds exactly one unread entry. |
| Notifications.UnreadLaws | frontend/src/components/NotificationProvider/index.jsx:41-145 | A list the provider keeps has at most 50 unread entries. After marking all as read, nothing is unread. Two notifications of known types shown in the same millisecond share a key, so closing one marks both read. |
| Notifications.SystemMessageConfig | frontend/src/components/NotificationProvider/index.jsx:104-113 | The kind is always one of the notification types. It is the type named by the upper-cased given kind when that is listed. It is info when no kind is given, and also when the upper-cased kind is not listed. The title and content pass through, and the duration is 6. |
| Notifications.SystemMessageTypes | frontend/src/components/NotificationProvider/index.jsx:108 | "Warning" is read case-insensitively as warning, and an unknown kind falls back to info. |
| Notifications.CheckCompleteConfig | frontend/src/components/NotificationProvider/index.jsx:77-89 | A success notification titled "检查完成" lasts 10 seconds, and its description names the paper and its grade. |
| ToastStack.IconFor | frontend/src/components/ui/Toast.jsx:17-24 | The icon is one of the four kinds: the toast's own kind when known, info otherwise. |
| ToastStack.AddToast | frontend/src/components/ui/Toast.jsx:53-64 | The toast is appended with the current time as its id. Its removal is scheduled iff the duration (3000 by default) is positive, after that duration. |
| ToastStack.RemoveToast | frontend/src/components/ui/Toast.jsx:49-51 | Exactly the toasts with a different id remain. |
| ToastStack.RemoveToastAppend | frontend/src/components/ui/Toast.jsx:49-51 | Removing distributes over concatenation, so the order is kept. |
| ToastStack.RemoveUnknownId | frontend/src/components/ui/Toast.jsx:49-51 | Removing an id no toast has changes nothing. |
| ToastStack.AddThenExpire | frontend/src/components/ui/Toast.jsx:53-64 | When the new id is fresh, the scheduled removal restores the list as it was before. |
| ToastStack.ExpiryLaws | frontend/src/components/ui/Toast.jsx:49-64 | A toast with a zero or negative duration is never removed automatically. Two toasts added in the same millisecond share an id, so one removal drops both. |
| ToastStack.Notify | frontend/src/components/ui/Toast.jsx:66-71 | Each helper adds a toast of its own kind, which is then shown with that kind's icon. |
| PrivateRoute.Guard | frontend/src/components/PrivateRoute/index.jsx:10-24 | A signed-out visitor goes to the login page. A signed-in visitor goes to 403 iff the route demands roles the visitor's role does not satisfy. Everyone else sees the page. |
| PrivateRoute.GuardLaws | frontend/src/components/PrivateRoute/index.jsx:10-24 | A route without a requirement, or with an empty one, admits every signed-in visitor. A signed-in visitor whose profile is not loaded yet is refused every demanding route. An administrator passes every route. After either outcome of a logout, every route sends the visitor to login. |
| PrivateRoute.FreshLoginForbidden | frontend/src/components/PrivateRoute/index.jsx:14-21 | Right after login, before the profile arrives, every demanding route answers 403. See also frontend/src/store/authSlice.js:47-50. |
| MainMenu.MenuItems | frontend/src/components/Layout/MainLayout.jsx:67-135 | The three base items always come first. Anything more appears iff the role is at least teacher, and user management appears iff the role is administrator. |
| MainMenu.UnlocksMonotone | frontend/src/utils/auth.js:50-57 | A role at least as high unlocks at least as much. |
| MainMenu.MenuLaws | frontend/src/components/Layout/MainLayout.jsx:67-135 | The menu of a higher role extends the menu of a lower one, with nothing reordered or dropped. An unknown role or a student gets 3 items, a teacher 6, a director or dean 7, and an administrator 8. |
| FileUploadWidget.HandleFiles | frontend/src/components/ui/FileUpload.jsx:27-51 | An empty pick is ignored and only the first file counts. It is refused with an alert iff it exceeds the bound, and otherwise becomes the whole value. |
| FileUploadWidget.HandleRemove | frontend/src/components/ui/FileUpload.jsx:53-55 | Removing empties the value. |
| FileUploadWidget.WidgetLaws | frontend/src/components/ui/FileUpload.jsx:11-51 | Files after the first have no effect. A file exactly at the bound is accepted and one byte more is refused. Without a bound, a file is accepted iff it is at most 10 MiB. |
| PaperUploadPage.BeforeUpload | frontend/src/pages/Papers/PaperUpload.jsx:60-76 | The upload never starts on its own. A file is accepted iff its extension is allowed and it is at most the size limit, and it then becomes the whole list. A refused file leaves the list as it was, and a wrong extension is reported with the list of accepted ones. |
| PaperUploadPage.OnRemove | frontend/src/pages/Papers/PaperUpload.jsx:77-79 | Removing empties the list. |
| PaperUploadPage.TruthyParts | frontend/src/pages/Papers/PaperUpload.jsx:32-36 | The fields sent are exactly the truthy form values. |
| PaperUploadPage.Submit | frontend/src/pages/Papers/PaperUpload.jsx:20-54 | An empty list sends nothing and asks for a file. Otherwise the request carries the file, then the truthy values, and goes to the graduation endpoint or else the course one. The page leaves for the paper list iff the upload succeeded, and a failure shows its message or the fallback. |
| PaperUploadPage.PageLaws | frontend/src/pages/Papers/PaperUpload.jsx:29-74 | The file the picker accepted is the one sent. A false, zero or empty value is not sent. For an allowed type, the picker size check agrees with the server 50 MiB limit (frontend/src/utils/constants.js:117 and backend/app/config.py:32 hold the same limit). |
| PaperUploadPage.PickerAcceptsOnlyServerAccepted | frontend/src/pages/Papers/PaperUpload.jsx:62-66 | A `stem.ext` name the picker accepts also passes the server's file check. See also backend/app/utils/file_handler.py:43-60. |
| PreviousPaperPage.BeforeUpload | frontend/src/pages/PreviousPapers/PreviousPaperList.jsx:252-265 | A file is kept out of the automatic upload and made the list iff its MIME type is docx and it is strictly under 50 MiB. Any other file is dropped from the list with a notice, and the wrong-type notice comes first. |
| PreviousPaperPage.UploadParts | frontend/src/pages/PreviousPapers/PreviousPaperList.jsx:56-72 | With no file nothing is sent. Otherwise the file goes first, then every form value in order, falsy ones included. |
| PreviousPaperPage.LimitDiffersFromPaperUpload | frontend/src/pages/PreviousPapers/PreviousPaperList.jsx:258 | A docx file of exactly 50 MiB passes the paper-upload picker and is refused here. See also frontend/src/pages/Papers/PaperUpload.jsx:69. |
| PreviousPaperPage.Years | frontend/src/pages/PreviousPapers/PreviousPaperList.jsx:176 | The i-th offered year is the current year minus i. See also frontend/src/pages/PreviousPapers/PreviousPaperList.jsx:228. |
| PreviousPaperPage.YearSelectors | frontend/src/pages/PreviousPapers/PreviousPaperList.jsx:176 | The filter's ten years are the first ten of the form's twenty. Both start at the current year and descend strictly. See also frontend/src/pages/PreviousPapers/PreviousPaperList.jsx:228. |
| ParameterListPage.PermissionHookMember | frontend/src/hooks/usePermission.js:26-30 | The hook returns exactly three members: `checkPermission`, `checkMinRole` and `role`. |
| ParameterListPage.AsWrittenIsDean | frontend/src/pages/Parameters/ParameterList.jsx:18-19 | The dean check throws iff the member the page takes is missing or not a function. See also frontend/src/hooks/usePermission.js:26-30. |
| ParameterListPage.PageThrowsForEveryRole | frontend/src/pages/Parameters/ParameterList.jsx:18-19 | The hook has no `hasPermission`, so the page throws while rendering, whatever the visitor's role. |
| ParameterListPage.DeanCheckByRole | frontend/src/utils/auth.js:26-42 | Exactly a dean or an administrator passes the single-role dean check. |
| ParameterListPage.IsDean | frontend/src/hooks/usePermission.js:14-16 | The intended dean check is true iff the role is dean or administrator. |
| ParameterListPage.IsDeanMatchesServer | backend/app/api/v1/parameters.py:92 | For a stored user, the intended check agrees with the server's minimum-dean check. See also backend/app/api/v1/parameters.py:118. |
| ParameterListPage.HandleEdit | frontend/src/pages/Parameters/ParameterList.jsx:43-51 | Editing warns iff the row is locked and the visitor is not a dean. Otherwise the form opens on that row. |
| ParameterListPage.LockSwitchOf | frontend/src/pages/Parameters/ParameterList.jsx:146-155 | The lock switch shows iff the visitor is a dean. It asks for the opposite of the row's state and reads "解锁" iff the row is locked. |
| ParameterListPage.EditButtonMatchesHandler | frontend/src/pages/Parameters/ParameterList.jsx:44 | The edit button is disabled exactly when pressing it would warn, and a dean is never refused. See also frontend/src/pages/Parameters/ParameterList.jsx:142. |
| ParameterListPage.AsWrittenLockCall | frontend/src/pages/Parameters/ParameterList.jsx:55 | As written, the call always goes to the lock route, whatever was asked. See also frontend/src/api/parameters.js:34-36. |
| ParameterListPage.LockCallFor | frontend/src/api/parameters.js:34-43 | As intended, the lock route is used iff locking was asked, and the unlock route otherwise, for the same id. |
| ParameterListPage.AsWrittenUnlockKeepsLock | frontend/src/pages/Parameters/ParameterList.jsx:151 | As written, a dean's unlock of a locked row succeeds but leaves the row locked. See also backend/app/api/v1/parameters.py:86-108. |
| ParameterListPage.UnlockCallUnlocks | backend/app/api/v1/parameters.py:112-133 | As intended, the dean's unlock leaves the row unlocked. |
| ParameterListPage.AsWrittenRow | frontend/src/pages/Parameters/ParameterList.jsx:44 | As written, the row's lock field is undefined, because the server names it `lock_status`. See also frontend/src/pages/Parameters/ParameterList.jsx:115-121; backend/app/schemas/parameter.py:56. |
| ParameterListPage.AsWrittenRowsLookUnlocked | frontend/src/pages/Parameters/ParameterList.jsx:44 | As written, even a locked row opens for editing, and a dean is offered "lock" on it. See also frontend/src/pages/Parameters/ParameterList.jsx:150-153. |
| ParameterListPage.RowOf | backend/app/schemas/parameter.py:56 | As intended, the row is locked iff the server's `lock_status` is true. |
| ParameterListPage.LockedRowBlocksNonDean | frontend/src/pages/Parameters/ParameterList.jsx:43-47 | With the intended reading, a locked row warns a non-dean, and the server refuses that visitor's update too. See also backend/app/api/v1/parameters.py:55-73. |
| ParameterListPage.SubmitCall | frontend/src/pages/Parameters/ParameterList.jsx:63-80 | Submitting updates the edited row iff one is being edited, and creates otherwise, with the form's values. |
| ParameterListPage.EditThenSubmitUpdates | frontend/src/pages/Parameters/ParameterList.jsx:48-68 | After a permitted edit, submitting updates that same row. |
| ParameterListPage.AsWrittenDataSource | frontend/src/pages/Parameters/ParameterList.jsx:24-35 | As written, the page's rows are the body's `data` member, or none when the body is a bare list. |
| ParameterListPage.AsWrittenTableEmpty | frontend/src/pages/Parameters/ParameterList.jsx:24-35 | As written, the table stays empty whatever `get_parameters` returns, so no stored parameter is ever shown. |
| ParameterListPage.DataSource | backend/app/api/v1/parameters.py:42-51 | As intended, the rows are the list the request resolves to, whether bare or wrapped in `data`. |
| ParameterListPage.DataSourceShowsTable | backend/app/api/v1/parameters.py:42-51 | With the intended reading, the page shows every stored parameter in the server's order, each with its lock state. |

## Left out

- Input and output are not modelled: database sessions, queries and commits, background task scheduling, file-system writes, HTTP transport, localStorage and the browser download in `export.js`. The stores are in-memory sequences, and each request's outcome is a parameter.
- Time is not modelled. `setTimeout` delays become "scheduled" effects, and `Date.now()` is the `now` parameter. Date objects in notification entries are dropped.
- React and antd rendering, `message`/`alert` pop-ups and the browser Notification API are not modelled. That includes `requestNotificationPermission` and the browser notification sent by `notifyCheckComplete`. Only the state each handler computes is kept.
- The `useWebSocket` effect that re-subscribes when `connect` changes identity is not modelled; the model runs one hook instance.
- Cryptography is not modelled: bcrypt hashing and verification and JWT encoding are function parameters.
- The AI service, the jieba tokeniser and the TF-IDF cosine are function parameters.
- The python-docx loading is not modelled; a document is a list of paragraphs with their runs and a page setup.
- Floating-point formatting is not modelled: `formatFileSize`, `toFixed` in `formatPercent`/`formatNumber`, the dayjs date formats, `JSON.stringify` and `String()` of non-text cells are oracle parameters. Numbers are exact `real`s, so rounding is not modelled.
- `exportToJSON` is left out: it is one `JSON.stringify` call followed by a download.
- Unicode case mapping is limited to ASCII letters. Whitespace stripping uses the full set of characters for which Python's `str.isspace()` holds.
- The `VITE_MAX_UPLOAD_SIZE` environment override is not modelled; the built-in default is used. The WebSocket base address is a parameter.
- The ordering of database results is left out; listings keep insertion order, and `get_parameters` is a plain listing with no rule of its own.
- JavaScript prototype keys are left out of every object lookup: a key such as `constructor` finds an inherited member in the source. This affects `ROLE_LEVELS` lookups (here such a role has level 0). It also affects `Loading.IsLoading`, where `loadingMap[key] || false` is truthy for such a key, and `ToastStack.IconFor`, where `icons[type]` finds the inherited member. Here such keys behave as absent.
- `request.js` treats every non-200 answer as a failure, so the 201 of a check submission looks like an error to the client. The interceptors are not part of this model, and the check pages take the outcome as a parameter.
- CheckSubmitPage.ParseInt: reads only a leading run of decimal digits. It does not accept the leading whitespace, sign or `0x` prefix that `parseInt` would, because route ids are decimal.
- Docx.DocumentKeywords: returns the words in first-occurrence order. Python's set order is unspecified, so the source promises only the set of words and the bound of 10.
- ClientFormat.TruncateText: counts and cuts code points. JavaScript's `length` and `substring` count UTF-16 code units, so text outside the Basic Multilingual Plane is truncated earlier in the source, and a cut can split a surrogate pair.
- Notifications.Show: the toast library's own members other than the four types (such as `open`) are not modelled; a call with such a type is treated like any unknown type, as a throw.
- ParametersApi.ApplyUpdate: treats an explicit `null` in the request like an absent field. The source's `exclude_unset` writes the `null` through to the row, where a non-null column refuses it at commit.
- AuthService.Register: a duplicate phone number passes both checks and fails on the unique constraint at commit. It is modelled as a server error, without modelling the constraint machinery.
- AuthService.Login: an identifier that matches one user's username and another user's email makes `scalar_one_or_none` raise. This is modelled as a server error.
- FormatStage.CheckFormat: uses the margin threshold 1800000 EMU exactly as the code does, although the comment beside it calls it 2 cm. 1800000 EMU is 5 cm, and 2 cm is 720000 EMU.
- CsvExport.ExportTableData: never returns the `catch` result `{ success: false, message: '导出失败' }`. The cell serialisers and the download are total functions here, so nothing inside the `try` can throw.
- The CSV output follows the source rather than RFC 4180: a field is quoted only for a comma, a quote or a line feed, so a lone carriage return stays unquoted, and records are joined by LF, not CRLF.
- FileHandler.ValidateFile: the refusal message joins `ALLOWED_EXTENSIONS`, a Python set, whose iteration order is unspecified. One order (.docx, .doc, .pdf) is fixed here, so the message text is exact only up to that order.
- PosixPath.Parts models only what `PurePosixPath` does to components: `..` stays a component, and the root and drive are not modelled apart, since only the last component matters here.
- RetryRequest.Run: the path after the loop is reachable only when `maxRetries` is negative, and it is modelled as a throw of no error. The warning and error texts are left out. The `onSuccess` and `onError` callbacks are left out and treated as returning normally. In the source a throwing `onSuccess` lands in the `catch`, so a success becomes a failure, or a retry when the thrown error is a network or server error. A throwing `onError` replaces the error that is rethrown.

Two places where the code and its design notes disagree follow the code:

- `_check_format` reads `page_setup.get("left_margin", 0)`. The key is always present, so the default never applies. A missing margin then makes the comparison raise, and the whole check ends FAILED (`FormatStage.CheckFormat`, `CheckService.PerformCheck`).
- `get_page_setup` compares `page_width < page_height` even when either is missing, which raises too.

## Findings

| source | as written | input that shows it | evidently intended | confidence | as-written member | corrected member |
|---|---|---|---|---|---|---|
| frontend/src/pages/Parameters/ParameterList.jsx:18-19 | The page takes `hasPermission` from `usePermission()`, which returns only `checkPermission`, `checkMinRole` and `role`. | Any visitor opening the parameter page: the call of `undefined` throws while rendering. | `checkPermission(USER_ROLES.DEAN)`, true for a dean or an administrator. | not executed | ParameterListPage.AsWrittenIsDean | ParameterListPage.IsDean |
| frontend/src/pages/Parameters/ParameterList.jsx:55 | `handleLock(id, false)` calls `lockParameter(id, { lock })`, which ignores its second argument and posts to `/lock`. | A dean pressing "解锁" on a locked row: the server locks it again. The page reaches this only once the first, third and fourth rows are all fixed. Until the first is fixed the page throws while rendering. Until the fourth is fixed it shows no rows. Until the third is fixed `is_locked` is undefined, so every button reads "锁定" and sends `!undefined`, which is true. | Unlocking posts to `/parameters/{id}/unlock`. | not executed | ParameterListPage.AsWrittenLockCall | ParameterListPage.LockCallFor |
| frontend/src/pages/Parameters/ParameterList.jsx:44 | The page reads `record.is_locked`, but the server's parameter response names the field `lock_status`. | A locked parameter: it shows as unlocked, its edit button is enabled for everyone, and a dean is offered "锁定". Reachable, like the row above, only once the first and fourth rows are fixed. | The row's lock state is `lock_status`. | not executed | ParameterListPage.AsWrittenRow | ParameterListPage.RowOf |
| frontend/src/pages/Parameters/ParameterList.jsx:29 | `loadData` sets the table to `res.data || []`. The response interceptor already resolves to the body, and `get_parameters` answers with a bare list, which has no `data` member. | Any non-empty parameter table: the page shows no rows. Reachable only once the first row is fixed: until then the render throws, so the mount effect that calls `loadData` never runs. | The rows are the list the request resolves to. | not executed | ParameterListPage.AsWrittenDataSource | ParameterListPage.DataSource |
