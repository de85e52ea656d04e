# libraryDownloader, modelled in Dafny

libraryDownloader logs in to the user's account at a number of ebook
stores and downloads every book on the user's bookshelf into a folder per
book. It skips files that are already on disk and non-empty. Each store is
an adapter class derived from a common `Bookstore` base. The base supplies
the run (`getBooks`):
- prepare the cookie file;
- check whether the user is logged in, and log in if not;
- walk the bookshelf.

It also supplies the shared steps: fetching a page, visiting the login
form, posting it, and downloading a file with or without a size probe.

This project models the base class, the file-system helpers and the
adapters for InformIT, Nexto, Woblink, Publio, PacktPub, Ebookpoint,
Programista, Virtualo, Apress, Springer, Manning and Swiat Ksiazki. Each
source file is one module (`bookstore.ts` is `Bookstore`, `informit.ts` is
`InformIT`, and so on). Shared pieces live in their own modules:
- `Wrappers`: `Option` and the step outcome;
- `Text`: the string operations the adapters use, such as `trim`, `split`,
  `indexOf`, global `replace` with alternatives, and placeholder filling;
- `Lists`: mapping, filtering, collecting and deduplicating;
- `Files`: the disk;
- `Env`: the network and the state threaded through a run.

The run's world is one value, `Env.State`:
- `disk`: the disk, as files with their sizes plus the directories;
- `replies`: the queue of replies the network will give, one per request in
  order, where a request past the end of the queue fails;
- `trace`: the events so far (requests, pauses, writes, new directories).

An asynchronous step is a function from a state to a `Step` value. It holds
an outcome and the state it leaves. The outcome is resolved (`Done`),
rejected (`Failed`), or never settled (`Stalled`). `Stalled` is what a
promise with no rejection handler does when its request fails. What the
adapters read from pages through CSS selectors or from parsed XML/JSON is
passed in as data: a scrape function, or the decoded fields of a reply.

Where the code loops, the loop is a `method` with its invariants, proved
equal to a recursive specification function. This covers pollers, paging,
walks over products, and the loops that collect links or parameters. The
properties the code promises are proved as lemmas about those functions,
for example:
- which files get written;
- that a present file is skipped;
- how many polls are sent, and what ends them;
- that a failed item does not stop the walk;
- round trips of the text parsers.

## Model

| member | source | states |
|---|---|---|
| Bookstore.LoggedInSkipsLogin | src/bookstores/bookstore.ts:44-54 | a check that finds the user logged in goes straight to the products, with the body the check fetched |
| Bookstore.LoggedOutLogsIn | src/bookstores/bookstore.ts:44-54 | a check that finds the user logged out runs the login once; products are walked from a successful login's body, and a failed login ends the run with its reason |
| Bookstore.FailedCheckEndsRun | src/bookstores/bookstore.ts:44-54 | a rejected check ends the run before any login or product step |
| Bookstore.CookiePathShape | src/bookstores/bookstore.ts:28 | the cookie file lies in the cookie directory, ends in ".<module>.cookies.json", and spells the login with its first '@' (only that one) replaced by '-' |
| Bookstore.PrepareRequestDefaults | src/bookstores/bookstore.ts:27-42 | the cookie file exists afterwards; it is created empty only when nothing was at its path, and otherwise nothing changes |
| Bookstore.MarkerAbsent | src/bookstores/bookstore.ts:64 | the logged-in test holds exactly when the marker occurs nowhere in the final URL |
| Bookstore.CheckIfUserIsLoggedIn | src/bookstores/bookstore.ts:56-72 | one GET of the bookshelf; resolves exactly when it is answered, with the body and the marker verdict; otherwise rejects with "Could not check if <login> is logged in." |
| Bookstore.GetPageBody | src/bookstores/bookstore.ts:84-100 | an exact or jittered pause, then one GET; resolves with the answer or rejects with the request's error |
| Bookstore.VisitLoginForm | src/bookstores/bookstore.ts:74-78 | the form is fetched after a jittered zero pause, beside an exact three-second pause; resolves exactly when the GET is answered |
| Bookstore.EnsureDirectory | src/bookstores/apress.ts:84-86 | afterwards the directory exists; it is made only when missing; no file changes |
| Bookstore.DownloadFile | src/bookstores/bookstore.ts:152-165 | one GET of the (optionally encoded) URL; resolves exactly when it is answered, then writes the whole body to dir/name, which then counts as present exactly when the body is non-empty; a failure writes nothing and rejects with "Error getting: ", the requested address (encoded when encoding is on) and the error; never stays pending |
| Bookstore.FileUrl | src/bookstores/bookstore.ts:155 | with encoding off the address is used as given; with it on, the result holds only kept characters and escape signs, and equals the address exactly when every character of the address is a kept one |
| Text.EncodeUri | src/bookstores/bookstore.ts:155 | `encodeURI`: never shorter than its input; the same length, and then the input itself, exactly when every character is one it keeps; the result holds only kept characters and "%" |
| Text.EncodeUriAppend | src/bookstores/bookstore.ts:155 | encoding distributes over concatenation: each character is encoded on its own |
| Bookstore.CheckSizeAndDownloadFile | src/bookstores/bookstore.ts:134-150 | a HEAD on the encoded URL; the download runs exactly when the declared length is present and below the maximum; otherwise the step resolves with nothing fetched; a failed HEAD rejects; the disk changes only when the size passed |
| Bookstore.SendLoginForm | src/bookstores/bookstore.ts:167-187 | a POST of the form, then a check GET; resolves with the bookshelf body exactly when both are answered and the marker is absent; every rejection names the login |
| Bookstore.Mention | src/bookstores/bookstore.ts:177 | the rejection message contains the login |
| Files.DirectoryExists | src/utils/filesystemUtils.ts:6-8 | a directory counts as existing when anything is at its path |
| Files.ElementExists | src/utils/filesystemUtils.ts:10-13 | a file counts only when it exists at dir/name, and an empty file counts as absent |
| Files.WrittenFileExists | src/utils/filesystemUtils.ts:10-13 | a file just written counts as present exactly when its size is non-zero, and a directory just made exists |
| Files.SeparatorMatters | src/utils/filesystemUtils.ts:11 | joining a directory and a name with "/" names the same file as plain concatenation exactly when the directory already ends in '/' |
| Env.StreamTo | src/bookstores/manning.ts:143-174 | a streamed download creates the file at once and holds every byte received; it resolves whenever a body was streamed, an answer with a status the client rejects included; a broken connection leaves the partial file and the promise never settles |
| Env.ErrorPageKept | src/bookstores/manning.ts:149-157 | an answer rejected for its status still resolves the stream, and a non-empty error page then counts as the file being present |
| Env.Read | src/bookstores/informit.ts:184 | reading a decoded field without a guard resolves with the field when it is present; a failed request rejects with its error, and a missing field rejects |
| InformIT.CheckIfUserIsLoggedIn | src/bookstores/informit.ts:16-29 | the base verdict with the body; a failed request is never handled, so the check never settles and never rejects |
| InformIT.LogIn | src/bookstores/informit.ts:31-68 | form GET, jittered one-second pause, credential POST, check GET; stays pending exactly when one of the three requests fails; resolves with the bookshelf body exactly when all are answered and the marker is absent; otherwise rejects "Could not log in as <login>"; no write |
| InformIT.ParseRegen | src/bookstores/informit.ts:152-164 | the regen call parses exactly when it has at least five comma-separated fields once the call syntax and quotes are stripped |
| InformIT.ParseRegenRoundTrip | src/bookstores/informit.ts:152-164 | parsing `javascript:regen(f0,...,fn)` with plain fields gives back the trimmed fields 1, 2 and 4 |
| InformIT.StripCall | src/bookstores/informit.ts:157 | stripping the call syntax from `javascript:regen(j)` leaves exactly j when j contains none of the stripped characters |
| InformIT.AspxName | src/bookstores/informit.ts:142 | the file type of a ready link is a non-empty lower-case run that occurs in the href as "/<type>.aspx" |
| InformIT.AspxNameOfPath | src/bookstores/informit.ts:142 | for "/<name>.aspx<query>" the file type is exactly name |
| InformIT.ParseLink | src/bookstores/informit.ts:125-144 | an href with "javascript:regen" becomes a generation request carrying the parsed isbn, nid and type; any other becomes a ready link whose address is the main URL plus the href with slash runs squeezed, and whose type comes from the .aspx name |
| InformIT.GetRefreshLinks | src/bookstores/informit.ts:122-150 | the loop returns one link per href, in order, with duplicates kept, exactly when every href parses; an href that fails makes the whole entry fail |
| InformIT.ParseEach | src/bookstores/informit.ts:125-147 | for any parser, the loop yields a list exactly when every href parses, one parsed value per href in order |
| InformIT.LinkKeysAreTokens | src/bookstores/informit.ts:117 | no placeholder of the download template contains another, so the one-pass fill is well defined |
| InformIT.PrepareDownloadLinkFills | src/bookstores/informit.ts:111-120 | every `_fileFormat_`, `_isbn_` and `_nid_` in the template is replaced in one pass; the literal text is kept |
| InformIT.PrepareDownloadLinkOtherCase | src/bookstores/informit.ts:117-119 | the match ignores case but the lookup does not, so a placeholder spelled in another case turns into "undefined" |
| InformIT.Conclude | src/bookstores/informit.ts:205-212 | ready exactly when the last value read is "True"; any other value reports the give-up message |
| InformIT.ContinueStep | src/bookstores/informit.ts:197-204 | one more round of the loop body (pause, post, read) reaches the same end |
| InformIT.ContinueStop | src/bookstores/informit.ts:204 | the loop is over as soon as its condition fails |
| InformIT.WaitUntilGenerated | src/bookstores/informit.ts:192-213 | the do-while loop with its counter and delay ends in exactly the outcome, state and request count of the poll specification |
| InformIT.PollRest | src/bookstores/informit.ts:197-204 | the passes after the first read end in the outcome, state and request count the poll specification gives from that read |
| InformIT.PostAgain | src/bookstores/informit.ts:198-203 | a later pass (pause of five seconds, post, read) while generation is not complete leaves the rest of the poll unchanged |
| InformIT.AttemptsValues | src/bookstores/informit.ts:204 | every poll before the last read "False", and a poll that stops before the cap read something else |
| InformIT.PollShape | src/bookstores/informit.ts:192-204 | between 1 and 60 status requests, the first after 0 ms and each later one after an exact 5000 ms; each takes one reply; nothing is written |
| InformIT.PollValues | src/bookstores/informit.ts:197-212 | polling stops at the first reply whose GenerationCompleted is not "False", or at 60; the file is ready exactly when that last value is "True" |
| InformIT.GenerateSpec | src/bookstores/informit.ts:166-190 | when the first answer's RequestSuccess is not "True" there is no polling, and the result is "Cannot generate <type> file" |
| InformIT.GenerateProduct | src/bookstores/informit.ts:166-190 | the method follows the generation specification: one POST, then the poller only on success |
| InformIT.CheckSizeAndDownloadBook | src/bookstores/informit.ts:215-227 | the book folder exists afterwards; a present non-empty file is kept with no request |
| InformIT.Products | src/bookstores/informit.ts:70-105 | the walk never rejects: a failing entry is caught and the next one runs |
| InformIT.ProcessLink | src/bookstores/informit.ts:78-99 | the loop body follows the per-link specification |
| InformIT.ProcessLinks | src/bookstores/informit.ts:78-100 | the inner loop follows the per-entry specification, stopping at the first link that does not resolve |
| InformIT.ProcessEntry | src/bookstores/informit.ts:73-103 | the try block parses the entry's links, then processes them |
| InformIT.GetProducts | src/bookstores/informit.ts:70-105 | the loop over shelf entries equals the products specification |
| InformIT.RegenSkipsPresentFile | src/bookstores/informit.ts:83-95 | a regen link whose file is already at booksDir+name sends nothing, waits for nothing and writes nothing |
| InformIT.RegenNotReadyWritesNothing | src/bookstores/informit.ts:86-92 | when generation does not report ready, the disk is unchanged and no folder is made |
| InformIT.GenerateDiskUnchanged | src/bookstores/informit.ts:166-213 | generating and polling never touch the disk |
| InformIT.RegenCheckPath | src/bookstores/informit.ts:81-83 | the regen check looks at booksDir+name while the download writes booksDir+"/"+name; these are the same file exactly when booksDir ends in '/' |
| Nexto.LogIn | src/bookstores/nexto.ts:14-33 | a failed form visit rejects with its error before any POST; otherwise the login resolves with the bookshelf body exactly when the POST and the check are answered and "login.xml" is absent; the trace is the form visit, the POST of the credentials form, then the check; every other rejection names the login; it never stays pending |
| Nexto.ServiceKeysAreTokens | src/bookstores/nexto.ts:208 | neither placeholder of the service template contains the other |
| Nexto.PrepareServiceUrlFills | src/bookstores/nexto.ts:203-211 | every `_fileId_` and `_fileTypeId_` of the template is replaced in one pass and the literal text is kept |
| Nexto.ServiceValue | src/bookstores/nexto.ts:195-201 | the status resolves exactly when the reply is answered and decodes with at least one `result.int` value; a failed request rejects with its error |
| Nexto.ServiceValueOfNumber | src/bookstores/nexto.ts:200 | a status written "<digits>.0" or "<digits>" reads as the digits |
| Nexto.CallService | src/bookstores/nexto.ts:195-201 | exactly one GET of the filled-in address after a jittered second; the result is the status read from its reply; the disk is unchanged |
| Nexto.CallServiceAfterPause | src/bookstores/nexto.ts:183-184 | the loop body's exact pause followed by the status call is one status call |
| Nexto.Conclude | src/bookstores/nexto.ts:188-192 | ready exactly on status '3'; any other status reports "Could not generate file after <count> attempts"; a rejected call rejects |
| Nexto.Poll | src/bookstores/nexto.ts:176-193 | the poll never stays pending |
| Nexto.ContinueStep | src/bookstores/nexto.ts:181-187 | one more round of the loop body reaches the same end |
| Nexto.ContinueStop | src/bookstores/nexto.ts:187 | the loop is over as soon as its condition fails |
| Nexto.WaitForProductToBeGenerated | src/bookstores/nexto.ts:176-193 | the do-while loop with its counter and delay ends in exactly the outcome, state and call count of the poll specification |
| Nexto.PollRest | src/bookstores/nexto.ts:181-187 | the passes after the first status call end in the outcome, state and call count the poll specification gives from that status |
| Nexto.CallServiceAgain | src/bookstores/nexto.ts:182-186 | a later pass (pause of five seconds, status call) while the status is not "3" leaves the rest of the poll unchanged |
| Nexto.AttemptsValues | src/bookstores/nexto.ts:187 | every call before the last read a pending status, and a loop that stops early read a non-pending one |
| Nexto.PollShape | src/bookstores/nexto.ts:176-187 | between 1 and 60 status calls, the first after an exact 0 ms and each later one after 5000 ms; each takes one reply; nothing is written |
| Nexto.PollStops | src/bookstores/nexto.ts:181-192 | the poll stops at the first status that is '3' or that fails, or after 60 calls; the verdict comes from the last status read |
| Nexto.PollValues | src/bookstores/nexto.ts:188-192 | ready exactly when the last status is '3'; a failed call rejects; not ready only after 60 calls, with the message "Could not generate file after 60 attempts" |
| Nexto.GiveUpVerdict | src/bookstores/nexto.ts:187-191 | a status other than '3' reaches a not-ready verdict only on the 60th call |
| Nexto.RetryMessage | src/bookstores/nexto.ts:191 | the give-up message names 60 attempts |
| Nexto.GetAuthors | src/bookstores/nexto.ts:96-101 | the authors are at most 100 characters and trimmed |
| Nexto.DropTrailingComma | src/bookstores/nexto.ts:98 | removing a trailing comma and its white space leaves a prefix of the text |
| Nexto.GetAuthorsDropsComma | src/bookstores/nexto.ts:96-101 | a short trimmed list of names comes back unchanged, with or without a trailing comma and white space after it |
| Nexto.EditionTagAt | src/bookstores/nexto.ts:106 | a match of the edition-tag pattern at the start lies within the text |
| Nexto.SpacedDashTag | src/bookstores/nexto.ts:106 | behind " - ", the match is exactly the tag word's match plus three |
| Nexto.RemoveEditionTags | src/bookstores/nexto.ts:106 | the global removal of edition tags never lengthens the text |
| Nexto.GetTitle | src/bookstores/nexto.ts:103-108 | the title is trimmed |
| Nexto.RemoveEditionTagsPlain | src/bookstores/nexto.ts:106 | text without white space passes through the tag removal unchanged |
| Nexto.TagSuffix | src/bookstores/nexto.ts:106 | a title without white space loses a trailing " - <tag word>" |
| Nexto.RemoveEbookSuffix | src/bookstores/nexto.ts:106 | a title without white space loses a trailing " - e-book", with any number of dashes after the 'e' |
| Nexto.RemoveAudiobookSuffix | src/bookstores/nexto.ts:106 | a title without white space loses a trailing " - audiobook" |
| Nexto.GetFileType | src/bookstores/nexto.ts:126-132 | a file type exists exactly when the text starts with a letter or digit; it is a non-empty alphanumeric run |
| Nexto.GetFileTypeOf | src/bookstores/nexto.ts:126-132 | the text "<name><rest>" gives name, except that "mp3" in any case gives "zip" |
| Nexto.GetProductDownloadParameters | src/bookstores/nexto.ts:161-166 | the parameters exist exactly when the link, with its dots-then-'?' removed, has at least three '&'-separated fields |
| Nexto.DropDotsQuery | src/bookstores/nexto.ts:164 | a link holding no ".?" is unchanged |
| Nexto.ParametersRoundTrip | src/bookstores/nexto.ts:161-166 | the link "k0=id&m&k2=tid" with plain parts gives back exactly id and tid |
| Nexto.DownloadUrl | src/bookstores/nexto.ts:138 | the address has no repeated slash except after a colon, and apart from slashes it is the main page, then the link |
| Nexto.DownloadProduct | src/bookstores/nexto.ts:134-148 | the folder booksDir/<name> exists afterwards; a present non-empty file is kept with no request; otherwise the encoded address is downloaded with no size probe; it never stays pending |
| Nexto.TryDownload | src/bookstores/nexto.ts:56-88 | the body of the try block never stays pending |
| Nexto.DownloadStep | src/bookstores/nexto.ts:52-91 | one file of a row always resolves: whatever fails inside the try is logged |
| Nexto.DownloadsStep | src/bookstores/nexto.ts:52-92 | the files of a row always resolve |
| Nexto.ProcessDownload | src/bookstores/nexto.ts:53-91 | the loop body follows the per-file specification |
| Nexto.TryProduct | src/bookstores/nexto.ts:56-85 | the statements of the try block leave exactly the state that the try-block specification gives |
| Nexto.ProcessDownloads | src/bookstores/nexto.ts:52-92 | the inner loop follows the per-row specification |
| Nexto.DownloadProductsFromPage | src/bookstores/nexto.ts:45-94 | the row loop follows the per-page specification, stopping at the first row that throws |
| Nexto.ProcessPage | src/bookstores/nexto.ts:40-41 | one page iteration is a fetch after a jittered second, then that page's rows |
| Nexto.ProcessPages | src/bookstores/nexto.ts:39-42 | the page loop follows the specification, stopping at the first page that fails |
| Nexto.GetProducts | src/bookstores/nexto.ts:35-43 | the first page's rows, then each page link of the first page once, in order |
| Nexto.PresentFileSkipped | src/bookstores/nexto.ts:54-55 | a file already under booksDir+name is skipped with no request, no pause and no write |
| Nexto.OtherStatusOnlyLogged | src/bookstores/nexto.ts:82-84 | an unrecognised or failed status sends only the status request and writes nothing |
| Nexto.ReadyStatusDownloadsAtOnce | src/bookstores/nexto.ts:79-81 | status '3' downloads at once, with no preparation and no poll |
| Nexto.PendingStatusPolls | src/bookstores/nexto.ts:61-78 | status '1' makes one preparation call and then polls; status '2' polls with no preparation |
| Nexto.NotReadyWritesNothing | src/bookstores/nexto.ts:65-69 | a poll that does not end ready leaves the state as the poll left it |
| Nexto.WritesOnlyWhenReady | src/bookstores/nexto.ts:60-85 | a file is written only when the service has reported it ready ('3'), directly or by polling |
| Woblink.LogIn | src/bookstores/woblink.ts:15-40 | the login resolves with the POST's body exactly when the form and the POST are answered and the final URL lacks "logowanie"; a failed visit rejects with its error; a failed POST is never handled, so the login stays pending exactly then; a rejection names the login; the trace is the visit, then the POST |
| Woblink.AuthorsJoined | src/bookstores/woblink.ts:98-105 | the authors are the trimmed names joined by ", ", with no separator at the end and white-space runs collapsed |
| Woblink.GetBookFormats | src/bookstores/woblink.ts:107-114 | no blank format is kept |
| Woblink.FormatsRoundTrip | src/bookstores/woblink.ts:107-114 | labels that are not blank and hold no ',' all come back trimmed, in order |
| Woblink.PageUrlsShape | src/bookstores/woblink.ts:54-64 | the page links are distinct, are exactly the main page address glued to each href with slash runs collapsed, and hold no doubled slash except after ':' |
| Woblink.Tries | src/bookstores/woblink.ts:142-155 | the loop sends between 1 and 10 generate requests |
| Woblink.Generate | src/bookstores/woblink.ts:138-160 | generation always answers: a throw anywhere is caught and answers false |
| Woblink.GeneratePublicationFiles | src/bookstores/woblink.ts:138-160 | the do-while loop with its counter and kept response object equals the generation specification |
| Woblink.GenerateRound | src/bookstores/woblink.ts:143-154 | one pass sends one request and pauses unless ready; it throws exactly on a rejection or a body that is not JSON, and otherwise the loop goes on exactly when the kept response object says not ready |
| Woblink.TriesAt | src/bookstores/woblink.ts:155 | after each reply the loop goes on exactly when that reply lets it and fewer than ten tries were made |
| Woblink.GenerateIs | src/bookstores/woblink.ts:138-160 | with k tries, the answer is whether the k-th reply was ready, k replies are used, and the trace is the k rounds |
| Woblink.TriesValues | src/bookstores/woblink.ts:155 | every reply before the last let the loop go on, and a loop that stops before ten was stopped by its last reply |
| Woblink.GenerateVerdict | src/bookstores/woblink.ts:138-160 | the answer is true exactly when some reply among the first ten is ready and every reply before it let the loop go on |
| Woblink.GenerateRequests | src/bookstores/woblink.ts:142-155 | between 1 and 10 generate requests, each taking one reply; nothing is written |
| Woblink.GiveUpWaits | src/bookstores/woblink.ts:150-153 | a loop that stops on an empty or not-ready reply has also waited ten seconds after it |
| Woblink.EmptyFirstReply | src/bookstores/woblink.ts:144-158 | an empty first reply ends the loop at once with one request, one pause and the answer false |
| Woblink.SuccessIgnored | src/bookstores/woblink.ts:146-148 | the `success` flag is only logged and never changes how a reply reads |
| Woblink.DownloadKeysAreTokens | src/bookstores/woblink.ts:187 | neither placeholder of the download template contains the other |
| Woblink.DownloadLinkFills | src/bookstores/woblink.ts:182-189 | every `_copyId_` and `_fileFormat_` of the template is replaced in one pass by the copy id and the lower-cased format; the rest is kept |
| Woblink.FormatStep | src/bookstores/woblink.ts:122-135 | one format never stays pending |
| Woblink.ProcessFormat | src/bookstores/woblink.ts:123-134 | the loop body follows the per-format specification |
| Woblink.DownloadPublication | src/bookstores/woblink.ts:116-136 | the book folder is made if missing, then the format loop follows the specification |
| Woblink.DownloadPublicationsFromPage | src/bookstores/woblink.ts:66-73 | the book loop follows the per-page specification, ending at a book whose download rejects |
| Woblink.ProcessPage | src/bookstores/woblink.ts:48-50 | one page iteration is a fetch after a jittered second, then that page's books |
| Woblink.ProcessPages | src/bookstores/woblink.ts:47-51 | the page loop follows the specification, stopping at the first page that rejects |
| Woblink.GetProducts | src/bookstores/woblink.ts:42-52 | the bookshelf page's books, then each page link of the bookshelf page once, in order |
| Woblink.PresentFormatSkipped | src/bookstores/woblink.ts:123-134 | a format whose file is present is skipped: no request, no pause, no write |
| Woblink.WritesOnlyWhenGenerated | src/bookstores/woblink.ts:124-131 | a format's file is written only when it was absent and generation answered true, and then it comes from the filled-in template |
| Publio.CheckIfUserIsAlreadyLoggedIn | src/bookstores/publio.ts:23-49 | any answer means logged in, with its body; a 401 rejection means logged out with an empty body; a failure with no response at all leaves the check pending; any other rejection names the login |
| Publio.LogIn | src/bookstores/publio.ts:51-81 | the form visit, then a JSON POST of the credentials; a failed visit rejects with its error; a failed POST rejects naming the login; another status than 200 rejects with "Got response code <status> while logging in"; with status 200, as written (`reparse`) the step always rejects with "Could not log in as <login>. Error: SyntaxError…", and with the answer used as decoded it resolves with the decoded body exactly when the body is JSON; never pending |
| Publio.LoginAlwaysRejects | src/bookstores/publio.ts:57-79 | as written, a login whose POST is answered with status 200 rejects with a reason naming the login, after exactly the form visit and the POST, having read two replies and written nothing |
| Publio.RunAsWrittenNeverResolves | src/bookstores/publio.ts:19-21 | as written, a run never resolves: logged in, the page walk rejects; logged out, the run ends with the login's rejection |
| Publio.ReadPage | src/bookstores/publio.ts:126-163 | one page request with the bearer token; resolves exactly when the body parses (never, as written); resolves true exactly when itemsPerPage * page > totalResults |
| Publio.FirstPageAlwaysRejects | src/bookstores/publio.ts:137-139 | as written, the walk rejects right after its first page request, whatever the service answers: one request, nothing written |
| Publio.LastPageTest | src/bookstores/publio.ts:153 | the last-page test passes exactly from page ceil((total+1)/itemsPerPage) on |
| Publio.PagesRun | src/bookstores/publio.ts:83-92 | with a constant total, pages from the first up to the last are requested in order, each once, and the walk then resolves without writing |
| Publio.PageStep | src/bookstores/publio.ts:88-91 | one page of a constant total: the walk stops there exactly when it is the last page, and goes on to the next page otherwise |
| Publio.PagesWriteNothing | src/bookstores/publio.ts:83-92 | walking the bookshelf pages writes nothing |
| Publio.DownloadPublicationsFromPage | src/bookstores/publio.ts:126-163 | the page step follows the page specification (with each body parsed) |
| Publio.GetProducts | src/bookstores/publio.ts:83-92 | the do-while runs the page counter from 1 until a page is the last one |
| Publio.RunTokens | src/bookstores/publio.ts:19-21 | a logged-in run never logs in and walks the pages with the token "undefined"; a logged-out run walks them with the login reply's token |
| Publio.Prepare | src/bookstores/publio.ts:281-290 | the progress loop never stays pending |
| Publio.Polls | src/bookstores/publio.ts:283-286 | the loop sends at least one request and at most one per reply left, plus one |
| Publio.PrepareValues | src/bookstores/publio.ts:281-290 | the loop reads replies up to the first that is not a decoded "not yet"; it resolves exactly when that reply says READY; one request per reply read, each after a jittered second; nothing is written |
| Publio.PrepareStep | src/bookstores/publio.ts:283-286 | a "not yet" reply leaves the rest of the loop to the next replies; any other reply ends it |
| Publio.NoAttemptLimit | src/bookstores/publio.ts:283-286 | there is no attempt limit: however many "not yet" replies come first, the loop reads past all of them |
| Publio.PrepareProductToDownload | src/bookstores/publio.ts:281-290 | the do-while over the progress replies equals the preparation specification |
| Publio.DownloadLinksFromPage | src/bookstores/publio.ts:265-279 | one download link per package type, in order, with its file type, ending in "&downloadPackageId=<type>" |
| Publio.ProductDownloadLinksFor | src/bookstores/publio.ts:205-220 | an empty package id rejects at once with "Could not find packageId within:" and the body; the links found carry the package id; never pending |
| Publio.GetProductMetadata | src/bookstores/publio.ts:292-312 | the title is trimmed |
| Publio.MetadataAuthorsJoined | src/bookstores/publio.ts:297-305 | the authors are the trimmed link titles joined by ", ", with no separator left at the end |
| Publio.FileExtensionCases | src/bookstores/publio.ts:11-16 | the extension table ignores case; audio ("mp3") becomes "zip"; an unknown type is kept as written |
| Publio.DownloadPublicationPackages | src/bookstores/publio.ts:314-333 | the folder is made if missing, then the loop over the links follows the package specification |
| Publio.PackagesWriteOnlyTheirFiles | src/bookstores/publio.ts:323-332 | the only files the package loop writes are the links' files in the package folder, each under its prepared name |
| Publio.PresentPackageSkipped | src/bookstores/publio.ts:325-331 | a link whose file is present is skipped: no request and no write |
| Publio.PublicationNeverDownloaded | src/bookstores/publio.ts:222-239 | no package id is ever found, so preparing a publication always rejects before any request; nothing is prepared, fetched or written |
| Publio.GetPagesLinks | src/bookstores/publio.ts:102-113 | the issues page links are distinct, and an address is among them exactly when it is the main page address followed by a pagination href naming a page number |
| Publio.IssuesPages | src/bookstores/publio.ts:194-203 | the issues page walk settles and leaves the disk alone; it resolves exactly when every page fetch is answered |
| Publio.IssuesPagesTrace | src/bookstores/publio.ts:194-203 | a walk that resolves has made, for each link in order, one pause and one GET of that page, and nothing else |
| Publio.DownloadAllPublicationIssues | src/bookstores/publio.ts:194-203 | the loop over the issues pages follows the walk's specification on the product page's links |
| Publio.DownloadPublication | src/bookstores/publio.ts:165-178 | a failed product page fetch rejects; a product that is not a press title always rejects for want of a package id; a press title resolves with the product page's body exactly when all its issues pages were fetched |
| PacktPub.Extension | src/bookstores/packtpub.ts:11-17 | "code" gives "code.zip", "video" gives "zip", and epub, mobi and pdf keep their names; an unknown type spells "undefined" |
| PacktPub.CheckIfUserIsLoggedIn | src/bookstores/packtpub.ts:20-24 | the check sends nothing and always answers "not logged in" |
| PacktPub.LogIn | src/bookstores/packtpub.ts:86-118 | an OPTIONS probe, then the JSON login POST; a failed probe rejects naming the login; a failed POST is caught by nothing, so the login stays pending; an answered POST resolves with its decoded body exactly when its status is 200, and otherwise rejects naming the status |
| PacktPub.GetNewTokens | src/bookstores/packtpub.ts:120-143 | one POST with the refresh token and the access token as bearer; resolves with the new pair exactly on a 200 that carries one; another status rejects; a failed request or a 200 without a pair leaves the step pending |
| PacktPub.GetBookshelfContents | src/bookstores/packtpub.ts:145-170 | an OPTIONS probe, then the GET with the token; never rejects; resolves exactly when both are answered and the page decodes, with its count and products, after exactly those two requests |
| PacktPub.ProbedGet | src/bookstores/packtpub.ts:172-226 | a failed probe leaves the step pending; a failed GET rejects with its error; an answered GET resolves exactly when its body decodes |
| PacktPub.GetBookDetails | src/bookstores/packtpub.ts:172-199 | the product's file types, read from its probed details |
| PacktPub.GetDownloadUrl | src/bookstores/packtpub.ts:201-226 | the download address is the decoded `data` field, spelled "undefined" when it is missing |
| PacktPub.SizeAtMost | src/bookstores/packtpub.ts:79 | the ceiling is inclusive: it admits everything the base ceiling admits, plus exactly a file of the maximum size |
| PacktPub.DownloadItemFile | src/bookstores/packtpub.ts:76-84 | a HEAD for the size, then a streamed GET into dir/name exactly when the size passes; never rejects; no file but that one changes |
| PacktPub.ItemStep | src/bookstores/packtpub.ts:56-74 | the step does nothing exactly when the directory exists and holds the file; a missing directory is made; only that directory and that file can change |
| PacktPub.TypesStep | src/bookstores/packtpub.ts:46-48 | the file-type loop never removes a directory and consumes replies |
| PacktPub.BookStep | src/bookstores/packtpub.ts:41-51 | the tokens are renewed first; the pair left is the renewed one when renewal resolved and the old one otherwise; a stalled or rejected renewal ends the product there |
| PacktPub.BooksStep | src/bookstores/packtpub.ts:40-52 | the product loop never rejects: a rejected product is logged and skipped |
| PacktPub.PagesFrom | src/bookstores/packtpub.ts:34-53 | the page loop never rejects |
| PacktPub.RunAlwaysLogsIn | src/bookstores/packtpub.ts:20-24 | every run logs in straight after the cookie preparation |
| PacktPub.FirstPageAtZero | src/bookstores/packtpub.ts:32-38 | the first page is read at offset 0, after a pause, with the login's access token |
| PacktPub.NextPage | src/bookstores/packtpub.ts:36-53 | after a page, the loop moves on 25 further exactly when that offset is below the page's count, carrying the pair the products left |
| PacktPub.WalkedCons | src/bookstores/packtpub.ts:36-53 | a page that continues, put before a walk from the next offset, is a walk from its own offset |
| PacktPub.WalkOffsets | src/bookstores/packtpub.ts:36-53 | a loop that resolves read one or more shelf pages at offsets offset, offset+25, … in order, each once; it went past every page but the last because the next offset was below that page's count, and stopped after the last because it was not |
| PacktPub.ConstantCountPages | src/bookstores/packtpub.ts:32-53 | with a count c on every page, a loop that resolves reads exactly the offsets 0, 25, …, 25·(n−1) with n = max(1, ⌈c/25⌉) |
| PacktPub.FailedBookSkipped | src/bookstores/packtpub.ts:41-51 | a rejected product does not stop the loop: the rest are walked from the state and pair it left |
| PacktPub.RenewedPairIsUsedNext | src/bookstores/packtpub.ts:42-44 | the pair a product leaves is the renewed one, and the next renewal sends it |
| PacktPub.ProcessTypes | src/bookstores/packtpub.ts:46-48 | the file-type loop follows its specification |
| PacktPub.ProcessBook | src/bookstores/packtpub.ts:41-51 | the product loop body follows its specification |
| PacktPub.ProcessBooks | src/bookstores/packtpub.ts:40-52 | the product loop follows its specification |
| PacktPub.GetProducts | src/bookstores/packtpub.ts:26-54 | the do-while over offsets 0, 25, 50 and so on follows the page specification |
| Ebookpoint.CheckIfUserIsLoggedIn | src/bookstores/ebookpoint.ts:18-36 | one GET of the bookshelf; logged in exactly when the final address equals the bookshelf address character for character; a failure rejects naming the login |
| Ebookpoint.LogIn | src/bookstores/ebookpoint.ts:38-72 | the form visit, the POST, then a second bookshelf GET; resolves with that body exactly when all three are answered and the POST ended exactly on the bookshelf address; a POST that ends elsewhere rejects "Could not log in as <login>"; never pending |
| Ebookpoint.ExactTestStricter | src/bookstores/ebookpoint.ts:27 | the exact test is stricter than the base marker test: the bookshelf address plus a fragment is logged out here but passes the marker test |
| Ebookpoint.CleanOnclick | src/bookstores/ebookpoint.ts:123 | the cleaned onclick holds no ')' and no quote and is no longer than the original |
| Ebookpoint.TidyText | src/bookstores/ebookpoint.ts:137-138 | the text is trimmed and loses exactly one final full stop when it has one |
| Ebookpoint.GetBookMetadata | src/bookstores/ebookpoint.ts:115-140 | the metadata reads exactly when the element has a title span and its last cover gives at least two fields; then the control value, the lower-cased type and the id (or "undefined") are fields 0, 1 and 2, and the title and authors are tidied |
| Ebookpoint.OkFormatsMembers | src/bookstores/ebookpoint.ts:169-171 | the names kept are exactly those of the formats marked OK, and there are no more of them than formats |
| Ebookpoint.OkFormatsAppend | src/bookstores/ebookpoint.ts:169-171 | the filter keeps the order of the formats |
| Ebookpoint.GetBookFileFormats | src/bookstores/ebookpoint.ts:166-172 | one request for the details; resolves exactly when it is answered and decodes, with the names of the formats marked OK; never pending |
| Ebookpoint.Extension | src/bookstores/ebookpoint.ts:144 | "mp3" is stored as "zip"; any other format keeps its name |
| Ebookpoint.DownloadKeysAreTokens | src/bookstores/ebookpoint.ts:159 | no placeholder of the download template contains another |
| Ebookpoint.DownloadLinkFills | src/bookstores/ebookpoint.ts:153-164 | every placeholder is filled in one pass and the rest is kept; the format is sent as listed, so an mp3 product is requested as mp3 and stored under a .zip name |
| Ebookpoint.FormatStep | src/bookstores/ebookpoint.ts:142-151 | a present file is skipped with no request; otherwise the size-checked download of the filled-in address runs; no folder changes; never pending |
| Ebookpoint.FormatsStep | src/bookstores/ebookpoint.ts:93-96 | the formats of a product never stay pending and never add a folder |
| Ebookpoint.ElementStep | src/bookstores/ebookpoint.ts:84-99 | one element never stays pending |
| Ebookpoint.ShelfStep | src/bookstores/ebookpoint.ts:81-104 | a shelf walk always resolves: whatever an element rejects with is logged |
| Ebookpoint.Products | src/bookstores/ebookpoint.ts:74-79 | the bookshelf, then the archive; never pending |
| Ebookpoint.NoFormatsNoFolder | src/bookstores/ebookpoint.ts:88-99 | a product with no format marked OK gets no folder and no download, and takes only the details request |
| Ebookpoint.UnreadableElementSkipped | src/bookstores/ebookpoint.ts:84-103 | an element whose metadata cannot be read sends nothing, changes nothing, and the walk goes on |
| Ebookpoint.ElementFolders | src/bookstores/ebookpoint.ts:106-113 | folders are only added, and only the product's own folder |
| Ebookpoint.ProcessFormats | src/bookstores/ebookpoint.ts:93-96 | the format loop follows its specification |
| Ebookpoint.ProcessElement | src/bookstores/ebookpoint.ts:84-102 | the element loop body follows its specification |
| Ebookpoint.ProcessShelf | src/bookstores/ebookpoint.ts:81-104 | the element loop follows the shelf specification |
| Ebookpoint.GetProducts | src/bookstores/ebookpoint.ts:74-79 | follows the products specification: the bookshelf, then the archive |
| Programista.LogIn | src/bookstores/programista.ts:17-45 | a failed form visit rejects with its reason; after the form, a failed post or check never settles; a check that finds the user logged in resolves with the check's body and one that does not rejects naming the login; the disk is untouched |
| Programista.MatchIssue | src/bookstores/programista.ts:102 | a matched issue has an all-digit month and year |
| Programista.PadMonth | src/bookstores/programista.ts:103 | a one-digit month gets a leading zero; a longer month is kept as it is |
| Programista.IssueNameOf | src/bookstores/programista.ts:101-105 | "Programista M/Y" followed by a non-digit matches with month M and year Y, and the issue is named "Programista Y-MM" with a month at least two digits long |
| Programista.Scrub | src/bookstores/programista.ts:90 | every white-space character left in the old name is a plain blank |
| Programista.WordsExclusive | src/bookstores/programista.ts:90 | at most one format word matches at any place, so the order of the alternation makes no difference |
| Programista.ScrubWord | src/bookstores/programista.ts:90 | a format word at the front, in any letter case, becomes one blank, and the replacement goes on after the word |
| Programista.ScrubSpaces | src/bookstores/programista.ts:90 | a run of white space at the front, up to the next other character, becomes one blank |
| Programista.ScrubPlainPrefix | src/bookstores/programista.ts:90 | a part where no white space and no format word starts is kept character for character, whatever follows it |
| Programista.ScrubPlain | src/bookstores/programista.ts:90 | a text with no white space and no format word in it is unchanged |
| Programista.NumberPlain | src/bookstores/programista.ts:90 | neither white space nor a format word starts at a digit or a slash |
| Programista.PrefixPlain | src/bookstores/programista.ts:90 | no format word starts inside the word "Programista" of a link, whatever follows its blank |
| Programista.ScrubLoneWord | src/bookstores/programista.ts:90 | each format word on its own becomes one blank |
| Programista.FormatWordBlank | src/bookstores/programista.ts:90 | each format word starts and ends with a character that is not white space, and becomes one blank |
| Programista.ScrubFormatLink | src/bookstores/programista.ts:90 | "Programista ", an issue number of digits and slashes, a blank and a format word become "Programista ", the number and two blanks |
| Programista.WordLinkOldName | src/bookstores/programista.ts:90 | such a link, replaced and trimmed, is "Programista M/Y": the word and both blanks are gone |
| Programista.WordLinkPattern | src/bookstores/programista.ts:88 | the issue pattern matches "Programista M/Y", a blank and any word, with month M and year Y |
| Programista.WordLinkTitle | src/bookstores/programista.ts:84-105 | a one-link panel "Programista M/Y", a blank and a word that becomes one blank: the old name is "Programista M/Y" and the corrected name "Programista Y-MM" |
| Programista.FormatLinkTitle | src/bookstores/programista.ts:84-105 | the same for every format word, so "Programista 3/2019 PDF" names the issue "Programista 3/2019" and its files "Programista 2019-03" |
| Programista.MatchAt | src/bookstores/programista.ts:87-88 | a link's match is the issue pattern applied to its trimmed text, the same entry the title search reads |
| Programista.GetIssueTitle | src/bookstores/programista.ts:84-99 | the first link text that matches the issue pattern gives the title; there is no title exactly when no link text matches |
| Programista.GetFileMetadata | src/bookstores/programista.ts:107-114 | the address must end in a letter or digit, otherwise the step throws; the extension is the whole trailing run of letters and digits; the address is kept; the name has no trailing blank and no two blanks in a row |
| Programista.FileName | src/bookstores/programista.ts:111 | the file name has no trailing white space and no two white-space characters in a row |
| Programista.FileNameDropsFirstExtension | src/bookstores/programista.ts:111 | only the first upper-case spelling of the extension is removed: the text before and after it are joined, then white space runs become one blank and the end is trimmed |
| Programista.FileNameOfLabel | src/bookstores/programista.ts:111 | a tidy title followed by a blank and the upper-case extension gives back the title |
| Programista.MetadataOfLink | src/bookstores/programista.ts:107-114 | for a link "<title> <EXT>" to "<stem>.<ext>" with an alphanumeric extension, the metadata are the title, the extension and the address |
| Programista.DownloadIssueFile | src/bookstores/programista.ts:116-124 | a file already present under its formatted name is skipped with the state unchanged; otherwise it is the size-checked download, with no pause: the three seconds passed as its delay are never used |
| Programista.CellStep | src/bookstores/programista.ts:69-81 | a cell without a file sibling does nothing; a cell that fails leaves the state unchanged |
| Programista.CellsStep | src/bookstores/programista.ts:69-81 | walking the cells always settles |
| Programista.IssueStep | src/bookstores/programista.ts:58-82 | a panel without an issue title fails with the type error before anything is written |
| Programista.IssuesStep | src/bookstores/programista.ts:51-56 | walking the panels always settles |
| Programista.NullTitleAborts | src/bookstores/programista.ts:53-61 | a first panel without a title aborts the whole walk with the state unchanged |
| Programista.FailedDownloadLogged | src/bookstores/programista.ts:75-79 | a rejected file download is caught: the walk goes on with the next cell from the state the download left |
| Programista.ProcessCells | src/bookstores/programista.ts:69-81 | the cell loop follows its specification |
| Programista.DownloadIssue | src/bookstores/programista.ts:58-82 | the issue download follows its specification |
| Programista.GetProducts | src/bookstores/programista.ts:51-56 | the panel loop follows its specification |
| Virtualo.LogIn | src/bookstores/virtualo.ts:13-53 | always settles and leaves the disk alone; logged in exactly when the post and the bookshelf GET both answer and the bookshelf's final address lacks the login marker, resolving with the bookshelf body; a failed post or GET rejects naming the login and the error, and a bookshelf still on the login page rejects naming the login |
| Virtualo.GetPageUrls | src/bookstores/virtualo.ts:71-78 | the pagination addresses are distinct, and an address is in the list exactly when it is the main page address followed by one of the hrefs |
| Virtualo.GetAuthors | src/bookstores/virtualo.ts:91-98 | the authors are the trimmed names joined by ", " |
| Virtualo.DownloadLinks | src/bookstores/virtualo.ts:100-108 | one download per button, in order, with the trimmed button text as its type and the main page address, a slash and the href as its address |
| Virtualo.ProductTitle | src/bookstores/virtualo.ts:111-114 | the folder name is the formatted title, followed by " - " and the authors exactly when there are authors |
| Virtualo.DownloadStep | src/bookstores/virtualo.ts:119-127 | a file already present is skipped with the state unchanged; otherwise it is downloaded with its address encoded; no page is fetched |
| Virtualo.DownloadsStep | src/bookstores/virtualo.ts:119-127 | the download loop always settles and fetches no page |
| Virtualo.ProductStep | src/bookstores/virtualo.ts:110-128 | the product's folder exists afterwards, the step always settles and it fetches no page |
| Virtualo.DownloadsKeepDirs | src/bookstores/virtualo.ts:119-127 | downloads create no folder and never remove a file |
| Virtualo.PageStep | src/bookstores/virtualo.ts:80-89 | a page's products are walked without fetching another page |
| Virtualo.PagesInQueueOrder | src/bookstores/virtualo.ts:58-68 | the walk fetches queued pages one at a time in queue order and nothing else as a page: a prefix of the queue, the whole queue when it resolves |
| Virtualo.AllPagesFetched | src/bookstores/virtualo.ts:58-68 | a walk that resolves has fetched every queued page, in order |
| Virtualo.DownloadProduct | src/bookstores/virtualo.ts:110-128 | the product download follows its specification |
| Virtualo.GetProductsFromPage | src/bookstores/virtualo.ts:80-89 | the product loop follows its specification |
| Virtualo.GetProducts | src/bookstores/virtualo.ts:55-69 | the do-while over the pages follows the walk's specification |
| Apress.LogIn | src/bookstores/apress.ts:13-29 | always settles and leaves the disk alone; a failed form visit rejects with its reason; logged in exactly when the visit, the post and the bookshelf GET all answer and the bookshelf is not the login page, resolving with the bookshelf body |
| Apress.BookTitle | src/bookstores/apress.ts:49-53 | without a subtitle the title is the trimmed title; with both, it is the trimmed title, ". " and the trimmed subtitle |
| Apress.TitleJoined | src/bookstores/apress.ts:52 | removing a trailing ". " and trimming gives back the title alone when the subtitle is empty, and the whole joined text otherwise |
| Apress.SwappedPairs | src/bookstores/apress.ts:60-62 | the i-th name is part 2i+1, a blank and part 2i |
| Apress.BlockNamesAsWritten | src/bookstores/apress.ts:58-63 | as the code reads: a block with fewer than two parts gives no names |
| Apress.BlockNames | src/bookstores/apress.ts:58-63 | corrected: a block with fewer than two parts gives no names; otherwise one name per complete pair, each the second part of the pair, a blank and the first |
| Apress.BookAuthorsAsWritten | src/bookstores/apress.ts:55-66 | as the code reads: the names of all blocks, in order, joined by ", " |
| Apress.BookAuthors | src/bookstores/apress.ts:55-66 | corrected: the complete-pair names of all blocks, in order, joined by ", " |
| Apress.ExampleParts | src/bookstores/apress.ts:58 | "Doe, John, Roe" splits into three parts |
| Apress.OddCountReadsPastEnd | src/bookstores/apress.ts:60-61 | with an odd count of three or more parts, the loop as written makes one name too many, and the last one is "undefined" followed by the last part |
| Apress.OddCountExample | src/bookstores/apress.ts:60-61 | the parts "Doe", "John", "Roe" give "John Doe" and "undefined Roe" as written, and only "John Doe" corrected |
| Apress.EvenCountsAgree | src/bookstores/apress.ts:55-66 | when every block has an even number of parts, the code as written and the corrected reading give the same authors |
| Apress.OneBlockAuthors | src/bookstores/apress.ts:55-66 | the authors of a one-block product are that block's names joined by ", ", in either reading |
| Apress.OddBlockNames | src/bookstores/apress.ts:58-63 | the block "Doe, John, Roe" names "John Doe" and "undefined Roe" as written, and "John Doe" alone corrected |
| Apress.OddBlockAuthors | src/bookstores/apress.ts:55-66 | a product whose one author block is "Doe, John, Roe" is named with the authors "John Doe, undefined Roe" as written, and "John Doe" corrected |
| Apress.BlockPairs | src/bookstores/apress.ts:58-63 | a block with fewer than two parts gives no names; otherwise its names are its first pairs, half its parts rounded up as written and rounded down corrected |
| Apress.BlockStep | src/bookstores/apress.ts:57-63 | one more block adds exactly the names of the pairs its inner loop visits |
| Apress.GetBookAuthors | src/bookstores/apress.ts:55-66 | the accumulating loop, with its trailing ", " removed, gives the authors as the code reads them when `asWritten` is set, and the corrected authors otherwise |
| Apress.AppendPairs | src/bookstores/apress.ts:60-62 | the inner loop's passes append one name each, followed by ", ": the second part of the pair, a blank and the first, a part past the end read as "undefined" |
| Apress.AppendPair | src/bookstores/apress.ts:61 | one pass appends the pair's name and ", " |
| Apress.AppendBlock | src/bookstores/apress.ts:58-63 | one author block appends the names of the pairs the inner loop visits, each followed by ", " |
| Apress.FileType | src/bookstores/apress.ts:72 | the format has no white space at either end |
| Apress.FileTypeAfterWord | src/bookstores/apress.ts:72 | a button text that starts with "Download" gives the rest of the text, trimmed |
| Apress.FileTypeWithoutWord | src/bookstores/apress.ts:72 | a button text without the word is only trimmed |
| Apress.LinksFrom | src/bookstores/apress.ts:70-76 | always settles and leaves the disk alone; resolves exactly when every button's page answers, with one address per button |
| Apress.LinksFromValues | src/bookstores/apress.ts:70-76 | each download address is the body of the matching button page's answer, in button order |
| Apress.Downloads | src/bookstores/apress.ts:71-74 | one download per button, with the button's format and the matching fetched address |
| Apress.DownloadsOf | src/bookstores/apress.ts:68-77 | always settles; resolves exactly when every button's page answers |
| Apress.DownloadsOfValues | src/bookstores/apress.ts:68-77 | the resolved downloads are one per button, each with the button's format and the body of the matching answer |
| Apress.DownloadBook | src/bookstores/apress.ts:79-92 | the book's folder is ensured first; a file already present is skipped; otherwise it is the size-checked download into that folder |
| Apress.DownloadsStep | src/bookstores/apress.ts:38-45 | a rejected download is caught, so the download loop always resolves |
| Apress.ItemStep | src/bookstores/apress.ts:34-45 | a product is named "title - authors", with the authors as the code reads them when `asWritten` is set and corrected otherwise; it settles, and resolves exactly when all its download addresses were fetched |
| Apress.ItemsStep | src/bookstores/apress.ts:31-47 | the product loop always settles, in either reading of the authors |
| Apress.EvenCountsSameProduct | src/bookstores/apress.ts:34-45 | when every author block has an even number of parts, a product is named, fetched and written alike in both readings |
| Apress.EvenCountsSameProducts | src/bookstores/apress.ts:31-47 | when every author block of every product has an even number of parts, the product walk as written and the corrected one end in the same outcome and the same state |
| Apress.GetBookDownloads | src/bookstores/apress.ts:68-77 | the button loop follows its specification |
| Apress.DownloadAll | src/bookstores/apress.ts:38-45 | the download loop follows its specification |
| Apress.ProcessItem | src/bookstores/apress.ts:34-45 | the product body, which reads the authors with `GetBookAuthors` in the same reading, follows its specification |
| Apress.GetProducts | src/bookstores/apress.ts:31-47 | the product loop follows its specification, in the reading its flag selects |
| Springer.LogIn | src/bookstores/springer.ts:12-30 | always settles and leaves the disk alone; a failed form visit rejects with its reason; logged in exactly when the visit, the post (sent without following redirects) and the bookshelf GET all answer and the bookshelf is not the login page, resolving with the bookshelf body |
| Springer.BookAuthors | src/bookstores/springer.ts:58-68 | the authors text has no white space at either end and no two white-space characters in a row |
| Springer.TidyBlock | src/bookstores/springer.ts:61-65 | a block of tidy names joined by ", " survives splitting on ", ", trimming the parts and joining them again |
| Springer.TidyNormalised | src/bookstores/springer.ts:67 | a trimmed, single-spaced text is unchanged by the final squeeze and trim |
| Springer.BlockRoundTrip | src/bookstores/springer.ts:58-68 | one block of tidy names joined by ", " gives exactly that text as the authors |
| Springer.BlocksRunTogether | src/bookstores/springer.ts:65 | two blocks are run together with no separator between them |
| Springer.TrimParts | src/bookstores/springer.ts:62-64 | the in-place loop trims every part of the split block, in place and in order |
| Springer.BlockAuthors | src/bookstores/springer.ts:61-65 | one block is split on ", ", its parts trimmed in place and joined again with ", " |
| Springer.GetBookAuthors | src/bookstores/springer.ts:58-68 | the block loop gives the authors the specification describes |
| Springer.Formats | src/bookstores/springer.ts:74 | one format per button, read from the button text as the Apress adapter reads it |
| Springer.Kept | src/bookstores/springer.ts:73-80 | a button yields at most one download, and one exactly when its address lookup found an address |
| Springer.Produced | src/bookstores/springer.ts:72-81 | the loop never yields more downloads than there are buttons |
| Springer.ProducedCount | src/bookstores/springer.ts:72-81 | there is one download per button exactly when every lookup found an address |
| Springer.ProducedAll | src/bookstores/springer.ts:72-81 | when every lookup found an address, download i is button i's format with lookup i's address |
| Springer.ProducedSnoc | src/bookstores/springer.ts:72-81 | one more button adds its own download, if any, at the end of the list |
| Springer.Lookups | src/bookstores/springer.ts:72-81 | the address lookups always resolve, one per button, consume one reply each and leave the disk alone |
| Springer.LookupsValues | src/bookstores/springer.ts:72-81 | each lookup is the body of the matching answer, or nothing when that request failed |
| Springer.LookupStep | src/bookstores/springer.ts:72-81 | looking up one button moves its result from the rest of the run to the already-collected prefix, without changing the run's outcome |
| Springer.DownloadsOf | src/bookstores/springer.ts:70-83 | a failed address fetch is caught, so the list always resolves, with at most one download per button, and it consumes one reply per button |
| Springer.DownloadsOfValues | src/bookstores/springer.ts:70-83 | the downloads are those kept from each button's format and the matching answer, in button order, and there is one per button exactly when every request was answered |
| Springer.AllFoundKeepsAll | src/bookstores/springer.ts:70-83 | when every request was answered there is one download per button, in order, with the button's format and the answer's body |
| Springer.LookedUpCount | src/bookstores/springer.ts:70-83 | whatever the formats, the list has one entry per button exactly when every address request was answered |
| Springer.DownloadBook | src/bookstores/springer.ts:85-99 | the book's folder is ensured first; a file already present is skipped; otherwise the plain download, with no size probe and the address not encoded |
| Springer.DownloadsStep | src/bookstores/springer.ts:39-45 | a rejected download is caught, so the download loop always resolves |
| Springer.ItemStep | src/bookstores/springer.ts:34-49 | a product always resolves |
| Springer.ItemsStep | src/bookstores/springer.ts:32-50 | the product loop always resolves |
| Springer.GetBookDownloads | src/bookstores/springer.ts:70-83 | the button loop follows its specification |
| Springer.CollectDownloads | src/bookstores/springer.ts:72-81 | the button loop yields the downloads kept from the formats and the lookups, and leaves the world where the lookups leave it |
| Springer.NextDownload | src/bookstores/springer.ts:73-80 | one pass of the button loop extends the collected downloads by that button's own download, if any |
| Springer.DownloadAll | src/bookstores/springer.ts:39-45 | the download loop follows its specification |
| Springer.ProcessItem | src/bookstores/springer.ts:35-45 | the product body follows its specification |
| Springer.GetProducts | src/bookstores/springer.ts:32-50 | the product loop follows its specification |
| Springer.ProcessItemAt | src/bookstores/springer.ts:32-50 | one pass of the product loop leaves the outcome of the rest of the loop unchanged |
| Manning.LogIn | src/bookstores/manning.ts:12-38 | the disk is untouched; a failed form visit or post never settles, since neither has a rejection handler; logged in exactly when both answer and the post's final address lacks the login marker, resolving with the post's body; otherwise it rejects naming the login; the post carries the login, the password and the three hidden form values read from the form page |
| Manning.NoForewords | src/bookstores/manning.ts:95 | text without an "F" passes the foreword rewrite unchanged |
| Manning.CollapseCommas | src/bookstores/manning.ts:97 | the comma squeeze empties only empty text and keeps the first character |
| Manning.CollapseCommasSpaced | src/bookstores/manning.ts:97 | after the squeeze every comma is followed by exactly one blank and then neither a comma nor white space, or ends the text |
| Manning.FormatAuthors | src/bookstores/manning.ts:93-100 | the formatted authors have no white space at either end and no two white-space characters in a row |
| Manning.PlainRewrites | src/bookstores/manning.ts:95-99 | trimmed, single-spaced text without commas, "F" or "W" passes every rewrite after the first unchanged |
| Manning.PlainKeepsText | src/bookstores/manning.ts:95-97 | two plain names around ", " pass the foreword, "With chapters selected by" and comma rewrites unchanged |
| Manning.PlainRewritesCommas | src/bookstores/manning.ts:95-99 | two plain names around ", " pass every rewrite after the first, spaces and trimming included, unchanged |
| Manning.OneNameUnchanged | src/bookstores/manning.ts:93-100 | one plain name without " and " is kept as it is |
| Manning.AndBecomesComma | src/bookstores/manning.ts:94 | two plain names joined by " and " come out joined by ", " |
| Manning.CommasKept | src/bookstores/manning.ts:97 | two plain names joined by ", " pass the comma squeeze unchanged |
| Manning.FileTypesData | src/bookstores/manning.ts:102-116 | no checkbox gives undefined; otherwise the step throws exactly when some format entry lacks its inputs, and else gives the checkbox's name and one format per entry, in order |
| Manning.GetFileTypesData | src/bookstores/manning.ts:102-116 | the entry loop follows its specification |
| Manning.CollectTypes | src/bookstores/manning.ts:102-116 | the loop over the `div`s gives one format per `div`, in order, when every `div` has its inputs, and nothing (the throw) when any lacks one |
| Manning.AddTypesList | src/bookstores/manning.ts:76-80 | adding the formats keeps every other key, adds each format's id as a key, and appends the ids in order to the list under the checkbox's name |
| Manning.AddTypesNames | src/bookstores/manning.ts:77-80 | with distinct ids, each id ends up mapped to its own format's name |
| Manning.ParametersShape | src/bookstores/manning.ts:72-80 | with separate ids the parameters hold exactly dropbox false, the external id, the ids in order under the checkbox's name, and each id with its name |
| Manning.BuildParameters | src/bookstores/manning.ts:72-80 | the parameter loop follows its specification |
| Manning.Extension | src/bookstores/manning.ts:81 | "zip" for several formats, the one format's type for one, and a thrown error for none |
| Manning.BookFile | src/bookstores/manning.ts:143-159 | the parameters are posted and the answer streamed into the file; without a form address the file is created empty and the step never settles; it never rejects |
| Manning.DownloadProduct | src/bookstores/manning.ts:125-141 | the folder is ensured; a book already present is skipped; otherwise the book is streamed, then the code samples into "<name>-CODE.zip" only when the book finished and a code link exists; it never rejects |
| Manning.BookBeforeCode | src/bookstores/manning.ts:133-137 | the book's request and write come before the code samples' request and write, and the code samples are requested only when the book's body was streamed, whatever its status |
| Manning.TryDownload | src/bookstores/manning.ts:70-86 | what throws inside the guarded block is caught: a failure while building the parameters or the extension leaves the state unchanged and the walk goes on |
| Manning.RowStep | src/bookstores/manning.ts:61-90 | a row whose formats cannot be read aborts the walk with the state unchanged; a row without formats or external id is skipped with the state unchanged |
| Manning.Products | src/bookstores/manning.ts:57-91 | a failed list fetch rejects with its reason; otherwise the rows read from the wrapped list body are walked |
| Manning.ProcessRow | src/bookstores/manning.ts:61-90 | the row body follows its specification |
| Manning.WalkRows | src/bookstores/manning.ts:61-90 | the row loop follows the rows specification |
| SwiatKsiazki.LoginForm | src/bookstores/swiatksiazki.ts:19-29 | the post carries the login and the password under `login[...]`, and the form key exactly when the login page had one |
| SwiatKsiazki.LogIn | src/bookstores/swiatksiazki.ts:14-40 | the disk is untouched; a failed form visit rejects with its reason; after it, a failed post never settles; logged in exactly when both answer and the post's final address lacks the login marker, resolving with the post's body; otherwise it rejects naming the login; the trace is the visit, the pause and the post carrying the form key read from the login page |
| SwiatKsiazki.TagAt | src/bookstores/swiatksiazki.ts:50 | a tag match starts with "(" and at least one tag character, and covers only removable characters |
| SwiatKsiazki.StripTags | src/bookstores/swiatksiazki.ts:50-51 | the cleanup never lengthens the text, and when quotes are removed none is left |
| SwiatKsiazki.StripKeepsText | src/bookstores/swiatksiazki.ts:50-51 | every character other than parentheses, lower-case letters, hyphens and double quotes survives the cleanup, in order |
| SwiatKsiazki.StripPlainPrefix | src/bookstores/swiatksiazki.ts:50 | text without "(" or a double quote is kept as the cleanup's prefix |
| SwiatKsiazki.TagRemoved | src/bookstores/swiatksiazki.ts:50 | a parenthesised tag of lower-case letters and hyphens, with its closing parenthesis, is removed entirely |
| SwiatKsiazki.ProductTitle | src/bookstores/swiatksiazki.ts:50 | the title holds no double quote |
| SwiatKsiazki.TitleWithTag | src/bookstores/swiatksiazki.ts:50 | a trimmed title followed by " (tag)" becomes the title alone |
| SwiatKsiazki.FileType | src/bookstores/swiatksiazki.ts:66 | the format holds no double quote |
| SwiatKsiazki.NoQuotesLeft | src/bookstores/swiatksiazki.ts:66 | removing every "Pobierz" and double quote leaves no double quote |
| SwiatKsiazki.FileTypeOfLabel | src/bookstores/swiatksiazki.ts:66 | the label "Pobierz X" gives the format X |
| SwiatKsiazki.DownloadData | src/bookstores/swiatksiazki.ts:63-71 | a button without a text node throws; otherwise one download per button, in order, with the cleaned label as its format and the button's href as its address |
| SwiatKsiazki.GetDownloadData | src/bookstores/swiatksiazki.ts:63-71 | the button loop follows its specification |
| SwiatKsiazki.DownloadProduct | src/bookstores/swiatksiazki.ts:73-86 | the folder is ensured first; a file already present is skipped; otherwise the plain download of the encoded address, with no size probe |
| SwiatKsiazki.DownloadsStep | src/bookstores/swiatksiazki.ts:53-59 | a rejected download is caught, so the download loop always resolves |
| SwiatKsiazki.ProductStep | src/bookstores/swiatksiazki.ts:49-60 | a product resolves exactly when its buttons can be read; otherwise the walk rejects with the state unchanged |
| SwiatKsiazki.ProductsStep | src/bookstores/swiatksiazki.ts:47-61 | the walk settles, and resolves exactly when every product's buttons can be read |
| SwiatKsiazki.DownloadAll | src/bookstores/swiatksiazki.ts:53-59 | the download loop follows its specification |
| SwiatKsiazki.ProcessProduct | src/bookstores/swiatksiazki.ts:49-60 | the product body follows its specification |
| SwiatKsiazki.GetProducts | src/bookstores/swiatksiazki.ts:47-61 | the product loop follows its specification |

## Left out

- The HTTP client, its cookie jar and the cookie file: every request takes the next reply of `Env.State.replies`. Redirect handling is reduced to the final address a reply carries.
- HTML, XML and JSON parsing (cheerio, xml2js, `JSON.parse`) and the iconv decoding: what the selectors and parsers read is passed in as scrape functions or as the decoded part of a reply.
- Timers (`timingUtils`): a pause is recorded as its length in milliseconds and whether it is jittered. The random jitter and the clock are not modelled.
- Bookstore.ONE_SECOND: the model gives every pause its intended length, with a second as 1000 ms, the value that src/bookstores/informit.ts:11, programista.ts:9, swiatksiazki.ts:9 and woblink.ts:10 (and PacktPub's `DELAY` at packtpub.ts:9) declare for themselves. The shared module src/utils/timingUtils.ts:3-11 declares no `ONE_SECOND`, so in bookstore.ts, apress.ts, ebookpoint.ts, nexto.ts, publio.ts, springer.ts and virtualo.ts every `timingUtils.ONE_SECOND * k` is `NaN` and those timers fire at once. Where a row gives a pause length for one of those files (the form visit's three seconds, Nexto's five-second poll, the jittered second before a page), it is the intended length, not the one the code waits.
- `stringUtils.formatPathName` is `Settings.pathName`, an arbitrary function. No property of it is assumed: neither idempotence nor that it keeps names inside the books folder.
- `main.ts`, the configuration files and the choice of store per account are not part of this model. They only build the settings and start `getBooks`.
- `src/bookstores/programista-junior.ts` is not part of this model. The runner never selects it.
- File streams: a download is one write of the size its reply carries. An answer with an error status is streamed like any other, so the error page becomes the file (Env.StreamTo). A stream that fails part way leaves the bytes received so far, and its promise never settles. Chunking and back-pressure are not modelled.
- `FS.mkdirSync` and `fs.existsSync`/`fs.statSync` act on the modelled disk. Permission errors and other file-system failures are not modelled.
- Logging (`console.log`) is dropped. It never changes what a step does.
- Promise wiring that has no observable effect is not modelled. An example is the `reject` at src/bookstores/publio.ts:46, which follows the `resolve` at line 41 when the check is answered with 401. The first settlement wins, so a 401 means logged out.
- Programista.GetFileMetadata: its own contract gives the extension, the address and the name's spacing. The removal of the first upper-case extension from the name is stated by Programista.FileNameDropsFirstExtension and Programista.MetadataOfLink.
- Programista.Scrub: its own contract gives only that the white space left is a plain blank. What the replacement does is stated by Programista.ScrubWord, Programista.ScrubSpaces, Programista.ScrubPlainPrefix and, for a whole issue link, Programista.ScrubFormatLink and Programista.FormatLinkTitle.
- Programista.FileName: its own contract gives only the spacing of the name. The removal of the first upper-case extension is stated by Programista.FileNameDropsFirstExtension and Programista.FileNameOfLabel.
- Apress.FileType: its own contract gives only the trimming. The removal of "Download" is stated by Apress.FileTypeAfterWord and Apress.FileTypeWithoutWord.
- Publio.Prepare: the source's poller has no attempt limit. The model terminates because the reply queue is finite: once it is empty, the next fetch fails.
- Publio `downloadSingleProduct` (src/bookstores/publio.ts:115-117) has an empty body and is a no-op. Each publication of a page is passed to it and nothing happens.
- Text.Substitute replaces only the placeholders of each store's own fixed list. Any other placeholder text stays in the address and is requested as it is; nothing rejects it.
- Text.Lower: maps only the ASCII letters A-Z, while `toLowerCase` maps every Unicode letter. It stands for the calls at src/bookstores/ebookpoint.ts:127, nexto.ts:128, publio.ts:336 and woblink.ts:168 and 185. A product type or format with a non-ASCII capital letter is therefore lower-cased differently.
- Text.Upper: maps only the ASCII letters a-z, while `toUpperCase` maps every Unicode letter. Its one use, at src/bookstores/programista.ts:111, applies it to an extension matched by `[a-zA-Z0-9]+`, which is ASCII, so there the two agree.
- Nexto.GetAuthors: the 100-character cut at src/bookstores/nexto.ts:99 counts code points in the model, while `substring` counts UTF-16 units. The two differ only on text with characters outside the Basic Multilingual Plane.
- The base class's size gate downloads only when the announced length is strictly below the maximum (src/bookstores/bookstore.ts:138). PacktPub downloads when the size is at most the maximum (src/bookstores/packtpub.ts:79). The model keeps both comparisons as written.

## Findings

| source | as written | input that shows it | evidently intended | confidence | as-written member | corrected member |
|---|---|---|---|---|---|---|
| src/bookstores/publio.ts:127-139 | the page is requested with `resolveWithFullResponse`, so `JSON.parse` receives the response object rather than its body and throws | any bookshelf page, whatever the service answers | the body is parsed and the items of each page are handled until the last page | not executed | Publio.ProductsAsWritten (lemma Publio.FirstPageAlwaysRejects) | Publio.Products (lemma Publio.PagesRun, method Publio.GetProducts) |
| src/bookstores/publio.ts:57-72 | the login POST sends its credentials with the `json` option, so the client has already decoded the answer, and `JSON.parse` at line 72 receives an object and throws; the `.catch` at lines 77-79 turns that into a rejection | any login answered with status 200 | the decoded answer is used as the login's result, and the walk gets its `authorizationToken` | not executed | Publio.LogIn with `reparse` true (lemmas Publio.LoginAlwaysRejects, Publio.RunAsWrittenNeverResolves) | Publio.LogIn with `reparse` false (lemma Publio.RunTokens) |
| src/bookstores/apress.ts:60-61 | the loop runs while `i < parts.length / 2` with real division, so an odd count of parts makes one extra pass past the end | the author text "Doe, John, Roe" gives "John Doe, undefined Roe" | only complete surname-name pairs are turned into names: "John Doe" | not executed | Apress.BookAuthorsAsWritten (Apress.GetBookAuthors and Apress.Run with `asWritten` set; lemmas Apress.OddCountReadsPastEnd, Apress.OddCountExample, Apress.OddBlockAuthors) | Apress.BookAuthors (Apress.GetBookAuthors and Apress.Run with `asWritten` unset; lemmas Apress.EvenCountsAgree, Apress.EvenCountsSameProducts) |
