# Medical image analysis and telemedicine portal — a Dafny model

This project models the deterministic core of a telemedicine application. Its FastAPI backend sends a patient's medical image (blood count, ECG, X-ray or microscopy) to an AI model and turns the reply into a structured result. Its React front end lets patients book doctors, doctors manage their appointments and availability, and administrators review doctor registrations.

The model covers:

- **Backend.**
  - Prompt selection over category × language × sub-category, in both dispatchers: `main.py` and `prompts.py`.
  - The request checks and prompt augmentation of `/api/medical/analyze`.
  - The image's data-URL extension and the PDF report's file name.
  - The line-by-line reply parser: sections, bullets, free text, keyword severity and parameter stamping.
- **Front end and hooks.**
  - The upload screen's gates and the analysis run with its simulated fallback.
  - The analyses history, the three-upload free limit and translation lookup with key fallback.
  - Both notification panels.
  - The doctor's appointment actions and availability editor, the patient's appointment tabs, doctor search and both booking screens.
  - The registration review and the portal gate.
- **Markdown helpers.** The PDF text clean-up, and the wrapper and clean-up steps of the HTML conversion.

Everything these rules receive from outside is an input to the model: database rows, the AI reply, regular-expression matches, the random confidence, the time of day and the authenticated user. Each query or write is passed in as its result, or as a flag saying it failed. A screen or hook whose state changes is a `class` whose methods state the new state in full. Pure rules are functions with lemmas relating them.

- `Wrappers`, `Text` and `Lists` are shared helpers:
  - Option values;
  - Python's and JavaScript's whitespace, strip/trim, ASCII lower-casing, split and join;
  - filtering, counting and subsequences.
- `PromptText` names the prompt pieces. A prompt is a sequence of `Segment`s, each naming which fixed text appears where: the language instruction, a family's role, a topic's body, the response format, the patient and sub-category contexts, and the front end's language line. The prose itself is not reproduced.
- `ReplyFormat` ties prompt and parser together. A reply laid out as the prompt asks parses back to its parts.
- `Bookings` relates the two booking screens to the two appointment lists.

## Model

| member | source | states |
|---|---|---|
| AnalysisParser.Classify | backend/main.py:1741-1762 | a line kept as plain text has no whitespace at either end |
| AnalysisParser.MatchHeaderOnTitle | backend/main.py:1746-1753 | a header line is recognised by its title, the line with its leading `#`s and the space after them removed |
| AnalysisParser.NoHashNoHeader | backend/main.py:1746-1755 | a line that does not start with `#` never switches the section |
| AnalysisParser.ParseSections | backend/main.py:1737-1764 | the loop over the reply's lines leaves exactly the sections of running the per-line step over every line in order |
| AnalysisParser.IgnorableLineChangesNothing | backend/main.py:1741-1755 | inserting a blank line or an unrecognised `#` line anywhere changes none of the parsed sections |
| AnalysisParser.NoItemsWithoutHeader | backend/main.py:1756-1760 | without a header for findings (or for recommendations) in the reply, that list stays empty |
| AnalysisParser.ItemsComeFromBullets | backend/main.py:1740-1760 | the findings are exactly the non-empty bullet remainders met while the last header seen was Key Findings, and the recommendations those met under Recommendations, each in order of appearance; the current section is that of the last recognised header, or the analysis with none |
| AnalysisParser.AnalysisGathersPlainLines | backend/main.py:1740-1764 | the accumulated analysis is exactly the plain lines met while the last header seen was Detailed Analysis (or before any header), in order, each followed by one space: plain lines under other sections are dropped and gathering resumes after a later analysis header |
| AnalysisParser.AnalysisIsSpacedPlainText | backend/main.py:1761-1764 | for a reply with no header leading out of the analysis section, the analysis is every plain line, each followed by one space, and the section stays the analysis |
| AnalysisParser.AnalysisJoinsPlainLines | backend/main.py:1761-1779 | a reply of plain lines only gives, once stripped, exactly those lines joined by single spaces |
| AnalysisParser.SeverityByKeywords | backend/main.py:1770-1776 | severe iff one of severe/critical/emergency/urgent occurs in the lower-cased text; normal iff none of the eight keywords occurs; moderate and mild by the same precedence |
| AnalysisParser.SeverityMonotone | backend/main.py:1770-1776 | adding text before or after a reply never lowers its severity |
| AnalysisParser.ExtractParameters | backend/main.py:1699-1723 | the parameters are every match of the three patterns, pattern after pattern in match order (duplicates kept), each with status "normal" |
| AnalysisParser.ParseAnalysisResponse | backend/main.py:1725-1786 | the result carries the stripped analysis, the findings and recommendations of the parse, the stamped parameters, the keyword severity of the whole reply, the given confidence (90-97) and the category as passed |
| AnalysisParser.ParseFailureResult | backend/main.py:1788-1798 | the fallback result: the raw reply as analysis, one finding and one recommendation of fixed text, no parameters, normal severity, a confidence in 90-97 and the category as passed |
| ReplyFormat.ReplyRoundTrip | backend/main.py:1725-1786 | a reply laid out with the requested headings, in either language, whose analysis lines, parameters, findings and recommendations keep to one line each, parses back to exactly those findings and recommendations, and its analysis is the analysis lines joined by spaces |
| ReplyFormat.LinesRoundTrip | backend/main.py:1737-1764 | the same at the level of the reply's lines |
| ReplyFormat.ReplyTextSections | backend/main.py:1737-1764 | parsing the joined reply text runs the per-line step over exactly the reply's lines |
| ReplyFormat.ReplySplits | backend/main.py:1737 | splitting the reply text on newlines gives back its lines |
| ReplyFormat.RunReply | backend/main.py:1740-1764 | running the step over the laid-out lines collects the four parts into their sections |
| PromptText.LangOf | backend/main.py:72 | Arabic exactly for the language "ar", English for every other value |
| PromptText.XrayTopicRecognises | backend/main.py:1339-1517 | the X-ray family's prompt is a specific one exactly for a recognised sub-category, and names it; otherwise the family default |
| PromptText.MicroscopyTopicRecognises | backend/main.py:1519-1697 | the same for the microscopy family |
| PromptText.FormatHeadings | backend/main.py:78-119 | the response format asks for four headings, each `## ` followed by a section title |
| PromptText.FormatHeadingsRecognised | backend/main.py:1746-1753 | each heading the response format asks for, in either language, is read back by the parser as the header of its own section |
| MainPrompts.GetAnalysisPrompt | backend/main.py:68-374 | three system pieces and one user piece, the language instruction first and the response format last, all in the language chosen |
| MainPrompts.PromptLanguage | backend/main.py:72-100 | every piece of the prompt is Arabic iff the language is "ar" |
| MainPrompts.TopicMatchesCategory | backend/main.py:121-374 | each of cbc, ecg, xray and microscopy gets a prompt of its own category; any other category, and only such, gets the general prompt |
| MainPrompts.DelegatesOnSubCategory | backend/main.py:227-290 | X-ray and microscopy hand a truthy sub-category to their family's dispatcher and use the chest X-ray or the general microscopy prompt otherwise |
| PromptsPy.GetAnalysisPromptPy | backend/prompts.py:2-194 | the second dispatcher's prompt: the language instruction first, the response format last, one user piece, all in the language chosen |
| PromptsPy.PyDispatch | backend/prompts.py:161-171 | X-ray and microscopy always delegate, an unrecognised or missing sub-category gets the family default, cbc and ecg are fixed, any other category is general |
| PromptsPy.PyFamilyPrompt | backend/prompts.py:196-510 | a delegated prompt has four system pieces, the family's base role second, between the language instruction and the response format of the chosen language |
| PromptsPy.DispatchersDisagree | backend/prompts.py:161-169 | the two dispatchers choose different prompts exactly for X-ray or microscopy requests without a truthy sub-category |
| PromptsPy.BareXrayDisagrees | backend/prompts.py:161-164 | an X-ray request without a sub-category gets the chest prompt from the first dispatcher and the X-ray default from the second |
| MedicalApi.ExtensionOf | backend/main.py:60 | the extension has no `.` and no upper-case letter |
| MedicalApi.ExtensionIsLastSuffix | backend/main.py:60 | the extension is the lower-cased text after the last `.` |
| MedicalApi.ExtensionDefaults | backend/main.py:59-60 | a name without a `.`, like a missing or empty name, gives `png` |
| MedicalApi.DefaultNameExtension | backend/main.py:59 | the default name image.png gives png |
| MedicalApi.ImageExtension | backend/main.py:59-60 | the extension actually used has no `.` and no upper-case letter |
| MedicalApi.DataUrl | backend/main.py:63 | the data URL starts with `data:image/` |
| MedicalApi.DataUrlShape | backend/main.py:63 | the data URL is `data:image/`, the extension, `;base64,` and the encoded image |
| MedicalApi.Validate | backend/main.py:1839-1845 | a request passes iff its content type starts with `image/` and its category is cbc, ecg, xray or microscopy; the image check comes first |
| MedicalApi.AiRequestFor | backend/main.py:1848-1902 | the model is sent the image's data URL |
| MedicalApi.AiRequestLanguage | backend/main.py:1860-1879 | every piece of the request the dispatcher or the contexts supply is in one language, Arabic iff the language field is "ar" |
| MedicalApi.AiRequestSystem | backend/main.py:1860-1883 | the system message opens with the front end's language line exactly when one is given, and with the dispatcher's language instruction otherwise; the response format comes last |
| MedicalApi.AiRequestUser | backend/main.py:1862-1879 | the user message is the prompt's body, then the patient context exactly when patient information was given, then the sub-category context exactly when a non-empty sub-category was given with category xray or microscopy |
| MedicalApi.StatusAsWritten | backend/main.py:1839-1915 | as written, the endpoint only ever answers 200 or 500 |
| MedicalApi.RejectionReportedAsServerError | backend/main.py:1839-1915 | a text/plain upload is answered 500 as written, where 400 is meant |
| MedicalApi.AsWrittenHidesRejections | backend/main.py:1839-1915 | every rejected request is answered 500 as written and 400 by the corrected endpoint |
| MedicalApi.Status | backend/main.py:1839-1915 | the corrected status is 200, 400 or 500 |
| MedicalApi.StatusMeaning | backend/main.py:1825-1915 | 400 iff the request is rejected, 200 iff it passes and the model replies, 500 iff it passes and the call fails |
| MedicalApi.AnalyzeMedicalImage | backend/main.py:1825-1915 | the model is called iff the request passes and with the request built from it; the answer is the 400 rejection, the 500 error or the parsed reply with the category |
| MedicalApi.AnalyzeCbcLegacy | backend/main.py:1918-1924 | the legacy endpoint is the cbc analysis: it calls the model iff the file is an image and parses the reply as cbc; a non-image gets the corrected 400, while the code as written answers it 500 |
| MedicalApi.ReportName | backend/main.py:1960-1973 | a report name exists iff the language is en or ar |
| MedicalApi.PdfFilename | backend/main.py:1960-1976 | a file name exists iff the language has a report name |
| MedicalApi.PdfFilenameShape | backend/main.py:1960-1976 | the file name is the report name, an underscore, the timestamp and `.pdf`; a category without an entry keeps its own name |
| MarkdownUtils.ParseMarkdownForPdf | src/utils/markdownUtils.ts:56-96 | empty input gives empty output |
| MarkdownUtils.PdfTrimmed | src/utils/markdownUtils.ts:95 | the PDF text has no whitespace at either end |
| MarkdownUtils.PdfHasNoHashOrBar | src/utils/markdownUtils.ts:62-73 | the PDF text contains no `#` and no `\|`: no later step brings one back |
| MarkdownUtils.StripMarkupChars | src/utils/markdownUtils.ts:62-73 | the markup steps write no character that the input or their replacements do not hold |
| MarkdownUtils.HeadingsRemoveHash | src/utils/markdownUtils.ts:62-65 | the heading steps leave no `#` |
| MarkdownUtils.StripMarkupRemovesHashAndBar | src/utils/markdownUtils.ts:62-73 | after the markup steps no `#` or `\|` remains |
| MarkdownUtils.CollapseIdempotent | src/utils/markdownUtils.ts:76 | collapsing whitespace twice is collapsing once |
| MarkdownUtils.PdfSingleSpaced | src/utils/markdownUtils.ts:76-95 | for text without an Arabic-range character the PDF text has no two whitespace characters in a row |
| MarkdownUtils.ArabicRulesRemove | src/utils/markdownUtils.ts:81-87 | the Arabic clean-up deletes exactly U+200C, U+200D and U+202A-U+202E |
| MarkdownUtils.ArabicCleanupDrops | src/utils/markdownUtils.ts:79-92 | the Arabic branch keeps every other character, so it is exactly the removal of those format characters; the three punctuation replacements are identities |
| MarkdownUtils.ArabicCleanupJoinsSpaces | src/utils/markdownUtils.ts:76-87 | the removal can make two spaces adjacent after the collapse, so single spacing holds only without Arabic text |
| MarkdownUtils.MarkupRulesWrite | src/utils/markdownUtils.ts:62-73 | every markup rule is well formed and writes only its own replacement characters |
| MarkdownUtils.ArabicRulesWrite | src/utils/markdownUtils.ts:81-92 | every Arabic rule replaces one character by at most one character |
| MarkdownUtils.ParseMarkdownToHtml | src/utils/markdownUtils.ts:2-54 | empty input gives empty output |
| MarkdownUtils.HtmlIsWrapped | src/utils/markdownUtils.ts:43-51 | for non-empty input the HTML starts with `<div class="prose max-w-none">` and ends with `</div>`, whatever the inline conversions produce |
| MarkdownUtils.KeepsClosingDiv | src/utils/markdownUtils.ts:47-51 | no clean-up step removes the final `</div>` |
| AnalysisRun.Truncated | src/hooks/useAnalysis.ts:39 | the diagnosis is at most the analysis's first 100 characters followed by "...": 103 characters long when the analysis is long enough |
| AnalysisRun.FromAnswer | src/hooks/useAnalysis.ts:38-49 | the shown result carries the truncated diagnosis, the full analysis as details, the recommendations joined by spaces, and the answer's findings, severity and confidence |
| AnalysisRun.RecommendationsRoundTrip | src/hooks/useAnalysis.ts:42 | splitting the joined recommendations on spaces gives them back when none of them holds a space |
| AnalysisRun.SimulatedResult | src/hooks/useAnalysis.ts:120-179 | a known category gets its own canned result; any other category gets the X-ray one |
| AnalysisRun.SimulatedResultShape | src/hooks/useAnalysis.ts:120-179 | every canned confidence lies in 88-95; the fallback's is 92 |
| AnalysisRun.SavedIsShown | src/hooks/useAnalysis.ts:29-72 | what is saved is what is shown, with the same confidence, on the service path and the fallback; a failed service call saves the canned result |
| AnalysisRun.Runner.SimulateAnalysis | src/hooks/useAnalysis.ts:15-109 | the run shows the service's answer or the fallback, saves the same result through the history, and ends not analysing |
| AnalysisRun.Runner.SetResult | src/hooks/useAnalysis.ts:111-113 | the result becomes the one given (cleared with none) |
| AnalysisRun.Runner.ClearInput | src/hooks/useAnalysis.ts:115-118 | the result is cleared and the caller is told to clear its inputs |
| MedicalAnalyses.InsertPayload | src/hooks/useMedicalAnalyses.ts:58-73 | the insert carries the user, category and file name with file type "image", and wraps the analysis, confidence, file URL and language |
| MedicalAnalyses.WithoutRemoves | src/hooks/useMedicalAnalyses.ts:107 | the delete keeps, in order, exactly the entries of other ids, and the length drops by the number of entries with the id |
| MedicalAnalyses.DeleteUndoesSave | src/hooks/useMedicalAnalyses.ts:78-107 | deleting a just-saved record with a fresh id restores the list as it was before the save |
| MedicalAnalyses.History.UserChanged | src/hooks/useMedicalAnalyses.ts:16-45 | signed out, the list is cleared; signed in, it becomes the rows fetched, or stays when the query fails |
| MedicalAnalyses.History.SaveAnalysis | src/hooks/useMedicalAnalyses.ts:47-95 | without a user nothing is sent and null is returned; otherwise the payload is sent and the returned row, if any, is prepended; a failure leaves the list |
| MedicalAnalyses.History.DeleteAnalysis | src/hooks/useMedicalAnalyses.ts:97-121 | a successful delete removes every entry with the id; a failed one leaves the list |
| UploadLimit.RemainingUploads | src/hooks/useUploadLimit.ts:25-26 | the number left is never negative, at most 3 for a non-negative count, 3 minus the count up to the limit, and 0 exactly when the limit is reached |
| UploadLimit.IncrementUsesOne | src/hooks/useUploadLimit.ts:14-26 | one more upload uses up one remaining upload, and a reached limit stays reached |
| UploadLimit.Counter.constructor | src/hooks/useUploadLimit.ts:7-12 | the count starts at the stored value, or 0 without one |
| UploadLimit.Counter.IncrementUploadCount | src/hooks/useUploadLimit.ts:14-18 | the count grows by exactly one and the new value is stored |
| UploadLimit.Counter.ResetUploadCount | src/hooks/useUploadLimit.ts:20-23 | the count returns to 0: three uploads remain and the limit is not reached |
| Translations.GetTranslation | src/translations/index.ts:10-12 | a key with non-empty text gives that text; a key missing from the table, or one whose text is empty, gives the key itself (keys that name members of the object prototype are not modelled) |
| Translations.TranslationNeverBlank | src/translations/index.ts:12 | a non-empty key never translates to blank text, and yields its entry or the key |
| Translations.AddedEntry | src/translations/index.ts:5-12 | an added entry is what the lookup then gives, unless it is empty, and no other key in either language changes |
| UploadSection.Screen.HandleFileSelect | src/components/UploadSection.tsx:37-47 | without a user the sign-in dialog opens and nothing else changes; an image becomes the selected file and clears the result; any other file is ignored |
| UploadSection.Screen.HandleCategoryChange | src/components/UploadSection.tsx:49-55 | the category is set; the sub-category is kept for xray and microscopy and cleared for every other category |
| UploadSection.Screen.HandleAnalyze | src/components/UploadSection.tsx:57-84 | without a user only the sign-in dialog opens; the upload starts iff the screen can analyse; when the upload returned something the result is shown, the insert payload for the user, file and saved result is sent, the returned row is prepended to the hook's history and analysing ends; otherwise nothing is run, sent or saved |
| UploadSection.Screen.HandleClearInput | src/components/UploadSection.tsx:86-93 | the result, file, category and sub-category are cleared |
| UploadSection.Screen.HandleSignOut | src/components/UploadSection.tsx:95-100 | the result, file and sub-category are cleared and the category is kept |
| Notifications.MarkReadRows | src/components/NotificationBell.tsx:60-62 | marking read keeps the length and sets read on exactly the rows with that id |
| Notifications.MarkReadUnread | src/components/NotificationBell.tsx:60-62 | the unread number drops by the number of unread rows with that id |
| Notifications.ReadOneRow | src/components/NotificationBell.tsx:60-63 | with unique ids, marking one row read lowers the unread number by one if it was unread and leaves it otherwise |
| NotificationBell.Bell.FetchNotifications | src/components/NotificationBell.tsx:30-49 | after a fetch the list is at most the 10 newest rows and the counter equals the unread among them; without a user or on an error nothing changes |
| NotificationBell.Bell.MarkAsRead | src/components/NotificationBell.tsx:51-67 | on success exactly the rows with that id become read and the counter drops by one, never below 0; on an error nothing changes |
| NotificationBell.Bell.Click | src/components/NotificationBell.tsx:115-119 | only an unread row is marked, and then the counter drops by one (not below zero); with unique ids the counter keeps equal to the number unread |
| NotificationSystem.Panel.OnInsert | src/components/NotificationSystem.tsx:36-39 | an inserted notification is prepended and the counter grows by one |
| NotificationSystem.Panel.FetchNotifications | src/components/NotificationSystem.tsx:54-73 | a fetch sets the list and makes the counter the number unread |
| NotificationSystem.Panel.MarkAsRead | src/components/NotificationSystem.tsx:75-91 | on success the rows with that id become read and the counter stays at least 0 |
| NotificationSystem.Panel.Click | src/components/NotificationSystem.tsx:132 | as written, a click marks the row read and lowers the counter (not below zero) even for a read row, which then leaves the counter below the number unread; a failed write changes nothing |
| NotificationSystem.ReadRowClickDrifts | src/components/NotificationSystem.tsx:84-132 | a read row "a", an unread row "b" and a counter of 1: after clicking "a" the counter is 0 while "b" is unread |
| NotificationSystem.Panel.ClickUnread | src/components/NotificationSystem.tsx:84-87 | the corrected click marks unread rows only and then lowers the counter by one (not below zero), keeping it equal to the number unread with unique ids |
| AppointmentCalendar.Transform | src/components/DoctorPortal/AppointmentCalendar.tsx:63-72 | the appointment's fields are the row's; non-empty notes, patient name and e-mail are copied, and missing or empty ones become empty, empty and "Unknown Patient" |
| AppointmentCalendar.DayListContents | src/components/DoctorPortal/AppointmentCalendar.tsx:48-72 | the day's list shows, in the query's order, exactly the doctor's rows for that date, each with a patient name |
| AppointmentCalendar.OfferedStatuses | src/components/DoctorPortal/AppointmentCalendar.tsx:194-236 | buttons that write a status appear exactly for pending (confirmed, cancelled) and confirmed (completed); none leads back to pending |
| AppointmentCalendar.StartMeetingBesideComplete | src/components/DoctorPortal/AppointmentCalendar.tsx:213-235 | "Start Meeting", which only raises a notice, shows exactly for the status whose only button writes completed |
| AppointmentCalendar.ButtonsMoveForward | src/components/DoctorPortal/AppointmentCalendar.tsx:194-236 | every button moves an appointment strictly forward: pending, then confirmed, then final |
| AppointmentCalendar.StageAtLeast | src/components/DoctorPortal/AppointmentCalendar.tsx:194-236 | after i button presses an appointment is at least i steps along |
| AppointmentCalendar.ButtonRunsEnd | src/components/DoctorPortal/AppointmentCalendar.tsx:194-236 | completed and cancelled are final: a run of presses has at most three statuses, never returns to pending, and the longest goes pending → confirmed → completed |
| AppointmentCalendar.SetStatusChanges | src/components/DoctorPortal/AppointmentCalendar.tsx:89-92 | the write changes only the status of the rows with that id, whatever their status was |
| AppointmentCalendar.Calendar.FetchAppointments | src/components/DoctorPortal/AppointmentCalendar.tsx:32-85 | without a user, without an approved registration, or when the appointments query fails the list stays; otherwise it becomes the day's list; loading ends |
| AppointmentCalendar.Calendar.UpdateAppointmentStatus | src/components/DoctorPortal/AppointmentCalendar.tsx:87-110 | on success the table gets the new status for that id and the list is re-read (kept when the re-read fails); on an error nothing changes |
| MyAppointments.FeeOrZero | src/components/PatientPortal/MyAppointments.tsx:63 | a missing fee shows as 0 and a present one as itself |
| MyAppointments.Transform | src/components/PatientPortal/MyAppointments.tsx:54-67 | the appointment's fields are the row's; notes default to empty, the fee to 0, the doctor to "Unknown Doctor" and the specialization to empty |
| MyAppointments.AllTabUnchanged | src/components/PatientPortal/MyAppointments.tsx:115 | the all tab shows the list unchanged |
| MyAppointments.TabShows | src/components/PatientPortal/MyAppointments.tsx:114-118 | every other tab shows, in order, exactly the appointments of its status, the pending tab's status being "scheduled" |
| MyAppointments.PendingOnlyUnderAll | src/components/PatientPortal/MyAppointments.tsx:114-118 | an appointment of status "pending" shows under the all tab and under no other |
| MyAppointments.ButtonsExclusive | src/components/PatientPortal/MyAppointments.tsx:222-232 | Join Meeting (confirmed) and View Records (completed with a diagnosis or prescription) never show together, and neither shows in another status |
| MyAppointments.JoinMeeting | src/components/PatientPortal/MyAppointments.tsx:120-130 | the link is opened iff it is non-empty; otherwise the error is reported |
| Bookings.BothScreensBookPending | src/components/PatientPortal/BookAppointment.tsx:125 | both booking screens write status "pending" |
| Bookings.PendingBookingOnCalendar | src/components/DoctorPortal/AppointmentCalendar.tsx:194-211 | a new booking shows in its doctor's list for its date with Confirm and Cancel |
| Bookings.PendingBookingInPatientList | src/components/PatientPortal/MyAppointments.tsx:114-118 | the same booking shows in the patient's list under the all tab only |
| AvailabilitySettings.SelectorValues | src/components/DoctorPortal/AvailabilitySettings.tsx:22-30 | seven days numbered from Sunday = 0; durations exactly 15, 30, 45 and 60; the new template is on Monday with offered values |
| AvailabilitySettings.ApplyChangesOneField | src/components/DoctorPortal/AvailabilitySettings.tsx:87-91 | an edit changes its own field and no other |
| AvailabilitySettings.Without | src/components/DoctorPortal/AvailabilitySettings.tsx:93-96 | removal never lengthens the list |
| AvailabilitySettings.WithoutDeletes | src/components/DoctorPortal/AvailabilitySettings.tsx:93-96 | removing an index in range deletes exactly that entry and keeps the order of the rest; an index out of range leaves the list |
| AvailabilitySettings.WithoutInRange | src/components/DoctorPortal/AvailabilitySettings.tsx:93-96 | the in-range case: the entries before and after the index, in order |
| AvailabilitySettings.WithoutOutOfRange | src/components/DoctorPortal/AvailabilitySettings.tsx:93-96 | the out-of-range case: the list unchanged |
| AvailabilitySettings.Settings.constructor | src/components/DoctorPortal/AvailabilitySettings.tsx:61 | the editor starts empty |
| AvailabilitySettings.Settings.FetchDoctorData | src/components/DoctorPortal/AvailabilitySettings.tsx:42-73 | an approved registration gives the doctor id and an empty list; loading ends |
| AvailabilitySettings.Settings.AddNewSlot | src/components/DoctorPortal/AvailabilitySettings.tsx:75-85 | exactly the default template (Monday, 09:00-17:00, 30 minutes, fee 50, active) is appended |
| AvailabilitySettings.Settings.UpdateSlot | src/components/DoctorPortal/AvailabilitySettings.tsx:87-91 | only the edited entry changes, and only in the edited field |
| AvailabilitySettings.Settings.RemoveSlot | src/components/DoctorPortal/AvailabilitySettings.tsx:93-96 | the list loses exactly the entry at the index |
| AvailabilitySettings.Settings.SaveAvailability | src/components/DoctorPortal/AvailabilitySettings.tsx:98-121 | without a doctor id nothing happens; with one, only the notice shows and nothing is stored |
| DoctorSearch.FindProfile | src/components/PatientPortal/DoctorSearch.tsx:79 | the profile found has the user's id; none is found only when no profile has it |
| DoctorSearch.NullIfFalsy | src/components/PatientPortal/DoctorSearch.tsx:85-86 | an empty or missing value becomes null, any other stays |
| DoctorSearch.ToDoctor | src/components/PatientPortal/DoctorSearch.tsx:78-94 | the doctor's fields are the registration's; the specialty's name and description are copied when non-empty and null otherwise, and null with no specialty; the e-mail is the first matching profile's when non-empty, else empty |
| DoctorSearch.DoctorsAreApproved | src/components/PatientPortal/DoctorSearch.tsx:65-94 | one doctor per approved registration, in order |
| DoctorSearch.FilterDoctorsSpec | src/components/PatientPortal/DoctorSearch.tsx:123-140 | the result keeps the list's order, and a doctor is in it iff it passes every filter that is set: the trimmed lower-cased name query, and the specialty by name or by specialization in any case |
| DoctorSearch.BlankQueryKeepsAll | src/components/PatientPortal/DoctorSearch.tsx:126 | a query of whitespace only filters nothing out |
| DoctorSearch.ClearFilters | src/components/PatientPortal/DoctorSearch.tsx:146-149 | both inputs are emptied |
| DoctorSearch.ClearedShowsAll | src/components/PatientPortal/DoctorSearch.tsx:123-149 | after clearing, every doctor is shown |
| BookAppointment.SlotsAscending | src/components/PatientPortal/BookAppointment.tsx:44-47 | twelve times in strictly increasing order, so none repeats |
| BookAppointment.SlotMinutes | src/components/PatientPortal/BookAppointment.tsx:44-47 | the times are `HH:MM`, from 09:00 to 11:30 and from 14:00 to 16:30, at least half an hour apart |
| BookAppointment.ForSpecialtySpec | src/components/PatientPortal/BookAppointment.tsx:54-65 | no specialty shows every doctor; a specialty shows, in order, exactly the doctors that match it by name or by specialization in any case |
| BookAppointment.BookingRecord | src/components/PatientPortal/BookAppointment.tsx:118-129 | the record has status pending, fee 50, type video, and the chosen doctor, date, time and notes |
| BookAppointment.BookingForm.FilterEffect | src/components/PatientPortal/BookAppointment.tsx:54-65 | the list becomes the doctors of the specialty and the selected doctor is dropped |
| BookAppointment.BookingForm.FetchDoctors | src/components/PatientPortal/BookAppointment.tsx:67-86 | new doctors re-run the filter and drop the selected doctor; a failed query changes nothing |
| BookAppointment.BookingForm.SelectSpecialty | src/components/PatientPortal/BookAppointment.tsx:54-65 | a different specialty drops the selected doctor; the same one keeps it |
| BookAppointment.BookingForm.SelectDoctor | src/components/PatientPortal/BookAppointment.tsx:218 | a doctor of the list becomes the selected one |
| BookAppointment.BookingForm.SelectSlot | src/components/PatientPortal/BookAppointment.tsx:291 | one of the fixed times becomes the selected one |
| BookAppointment.BookingForm.BookAppointment | src/components/PatientPortal/BookAppointment.tsx:102-152 | without a doctor and a time, or without a user, nothing is sent; otherwise the booking record is sent, and a success clears the doctor, time and notes |
| DoctorProfile.ProfileBooking | src/components/PatientPortal/DoctorProfile.tsx:110-120 | the record has status pending, fee 100, type video, no notes, and the chosen doctor, date and time |
| DoctorProfile.BookingScreensAgree | src/components/PatientPortal/DoctorProfile.tsx:110-120 | the two screens' records differ only in the fee (50 against 100) and the notes |
| DoctorProfile.FetchedSlots | src/components/PatientPortal/DoctorProfile.tsx:75-92 | the slots fetched, or none when the call failed |
| DoctorProfile.Profile.FetchDoctorProfile | src/components/PatientPortal/DoctorProfile.tsx:53-73 | the doctor becomes the row found, or stays when the query fails; loading ends |
| DoctorProfile.Profile.FetchAvailableSlots | src/components/PatientPortal/DoctorProfile.tsx:75-92 | with a doctor, the slots become the rows fetched, or none when the call fails; without one nothing changes |
| DoctorProfile.Profile.SetDate | src/components/PatientPortal/DoctorProfile.tsx:43-51 | the date is set and the slots re-read; the chosen time is kept |
| DoctorProfile.Profile.SelectSlot | src/components/PatientPortal/DoctorProfile.tsx:243 | an available slot becomes the chosen time, which is then bookable, and the book button is then enabled unless a booking runs |
| DoctorProfile.Profile.BookAppointment | src/components/PatientPortal/DoctorProfile.tsx:94-142 | without a doctor and a time, or without a user, nothing is sent; an enabled book button with a doctor and a user sends the profile booking; a success clears the time, re-reads the slots and leaves the button disabled |
| DoctorProfile.BookableAfterFetch | src/components/PatientPortal/DoctorProfile.tsx:74-92 | after a fetch the bookable times are exactly the times of the available rows; a failed fetch leaves none |
| DoctorProfile.TakenSlotNotBookable | src/components/PatientPortal/DoctorProfile.tsx:243 | a slot button is disabled when the slot is taken, so with distinct times a taken slot's time cannot be picked |
| DoctorRegistrations.UpdateData | src/components/AdminPortal/DoctorRegistrations.tsx:64-72 | status approved or rejected, reviewed by the acting user; a reason is stored iff rejecting with a reason that is not blank, and it is stored trimmed |
| DoctorRegistrations.StoredReasonTrimmed | src/components/AdminPortal/DoctorRegistrations.tsx:70-71 | a stored reason is non-empty, has no whitespace at either end and uses only characters typed |
| DoctorRegistrations.NotificationFor | src/components/AdminPortal/DoctorRegistrations.tsx:83-93 | the notification goes to the registration's user, titled "Registration Approved" or "Registration Rejected", of type success or error, with the reason as typed after "Reason: " when one was typed |
| DoctorRegistrations.NotificationMatchesUpdate | src/components/AdminPortal/DoctorRegistrations.tsx:64-93 | the notification is success iff the update approves and error iff it rejects |
| DoctorRegistrations.BlankReasonOnlyInMessage | src/components/AdminPortal/DoctorRegistrations.tsx:70-90 | a reason of whitespace only is not stored, yet the message still carries it |
| DoctorRegistrations.Review.FetchRegistrations | src/components/AdminPortal/DoctorRegistrations.tsx:39-57 | the list becomes the rows, or stays when the query fails; loading ends |
| DoctorRegistrations.Review.OpenRejection | src/components/AdminPortal/DoctorRegistrations.tsx:176-194 | the Reject button of a pending registration selects it |
| DoctorRegistrations.Review.CancelRejection | src/components/AdminPortal/DoctorRegistrations.tsx:231-233 | the dialog's Cancel clears the selection and the reason |
| DoctorRegistrations.Review.HandleApproval | src/components/AdminPortal/DoctorRegistrations.tsx:59-113 | without a user nothing happens; otherwise the update is written; on success the doctor is notified when the registration is in the list, the selection and reason are cleared and the list re-read |
| DoctorRegistrations.ReviewClosesReview | src/components/AdminPortal/DoctorRegistrations.tsx:176-194 | Approve and Reject show for a pending registration only, and a review writes a status other than pending, so the reviewed registration is no longer offered for review |
| DoctorRegistrations.FindRegistration | src/components/AdminPortal/DoctorRegistrations.tsx:82 | the registration found is in the list and has the id; none is found exactly when no registration has it |
| DoctorRegistrations.FoundIsFirst | src/components/AdminPortal/DoctorRegistrations.tsx:82 | the registration found is the first in the list with that id |
| DoctorTabs.ViewFor | src/components/DoctorPortal/DoctorTabs.tsx:54-110 | loading shows only the loading view; no registration shows the form; pending or rejected shows the status view; every other status opens the portal with its six tabs |
| DoctorTabs.PortalFor | src/components/DoctorPortal/DoctorTabs.tsx:68-110 | the portal opens iff a registration exists whose status is neither pending nor rejected, unknown statuses included |
| DoctorTabs.Check | src/components/DoctorPortal/DoctorTabs.tsx:31-52 | without a user nothing changes; otherwise the registration becomes the row found (or stays when the query fails) and loading ends |
| DoctorTabs.CheckDecidesView | src/components/DoctorPortal/DoctorTabs.tsx:31-65 | before a signed-in check only the loading view shows; a check that finds no registration shows the form |
| DoctorTabs.ReviewOpensPortal | src/components/AdminPortal/DoctorRegistrations.tsx:64-72 | after the review's partial update an approved doctor sees the portal and a rejected one the status view with the reason the row then holds: the new one when given, the old one otherwise |

## Left out

- The AI model call (backend/main.py:1888-1902) is not modelled: the reply is an input, and a missing reply stands for a failed call.
- The base64 encoding of the image is not modelled: the encoded text is an input.
- The regular-expression matching in `extract_parameters` is not modelled: the three patterns' matches are an input, and only the loop that stamps them is.
- The inline steps of `parseMarkdownToHtml` (markdownUtils.ts:7-40) are a function parameter. The paragraph split, the wrapper and the clean-ups are modelled.
- PDF rendering and the HTML/CSS report templates are external renderers and are not modelled. Only the file name is.
- The random confidence (backend/main.py:1784) is a parameter, required to lie in 90-97.
- Timestamps are parameters or are left out: `reviewed_at`, the PDF timestamp, and today's date in the booking screens.
- Date and time formatting is left out.
- The patient-information JSON parsing is left out: its result is an input.
- The database is not modelled: queries, auth, storage uploads and the realtime channel. Rows are inputs, a failure is `None` or a flag, and a realtime insert is a method call.
- The query ordering (newest first, by time) is taken as given.
- The realtime channel has no filter of its own: every insert on the notifications table is prepended and counted, as Panel.OnInsert states. Which rows the database delivers to the subscriber is not modelled.
- The file upload hook is reduced to whether it returned something.
- Slot generation happens in the `get_available_slots` database function, whose body is not part of this model. Its rows are an input.
- No double-booking check is modelled, since the source has none.
- The MyAppointments fetch is modelled only as its row transform and the tab filter.
- The specialty lists that feed the selectors are inputs.
- Toasts are modelled as returned flags where they report an outcome, or are left out.
- The translation tables are an input: their texts are not reproduced.
- Lower-casing is ASCII only. Whitespace follows Python's and JavaScript's definitions. Strings are sequences of characters, not UTF-16 units.
- Fees are integer cents. `parseInt`/`parseFloat` of the inputs is not modelled.
- The prompt prose is not reproduced. Prompts are sequences of named pieces.
- The `mockResults` lookup treats only the four keys as present: a category such as `toString`, which JavaScript would find on the object's prototype, is not modelled.
- The analysis hook saves into its own history, separate from the screen's. This is modelled as written.
- ParseMarkdownForPdf: its own contract states only the empty case; the trimmed ends are stated in PdfTrimmed, the absence of `#` and `|` in PdfHasNoHashOrBar and the single spacing in PdfSingleSpaced.
- GetTranslation: the tables are modelled as maps holding only their own entries. A key such as `toString`, `constructor` or `hasOwnProperty`, which JavaScript would find on the object's prototype and which then yields that truthy member, is not modelled: the model returns the key.
- AnalyzeCbcLegacy: its response states the corrected 400 for a non-image, as the endpoint it delegates to does; the 500 the code as written answers is stated beside it through StatusAsWritten.
- UpdateSlot: requires an index in range; every row calls it with its own index.
- The patient's pending tab looks for status "scheduled" while both booking screens write "pending", so a new booking appears only under the all tab (Bookings.PendingBookingInPatientList). This is modelled as written, because the status colours use "scheduled" too and the intent is not clear.

## Findings

| source | as written | input that shows it | evidently intended | confidence | as-written member | corrected member |
|---|---|---|---|---|---|---|
| backend/main.py:1839-1915 | the 400 `HTTPException` for a non-image file or an unknown category is raised inside the `try`, and the generic `except Exception` re-raises it as a 500 | an upload with content type `text/plain` and category `cbc` | a rejected request is answered 400 | not executed | MedicalApi.RejectionReportedAsServerError | MedicalApi.AnalyzeMedicalImage |
| src/components/NotificationSystem.tsx:84-132 | every click calls `markAsRead`, which lowers the counter even for a row already read | a read row "a", an unread row "b" and a counter of 1: clicking "a" leaves the counter at 0 while "b" is unread | only an unread row is marked, as in NotificationBell.tsx:115-119, so the counter stays the number unread | not executed | NotificationSystem.ReadRowClickDrifts | NotificationSystem.Panel.ClickUnread |
