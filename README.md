# designfolio client core in Dafny

A model of the client-side logic of designfolio, a portfolio and critique
network for design students built on Next.js and a hosted Supabase backend.
The model covers:

- the image picker and the upload of a work's images (validation, storage
  paths, merging and ordering the per-file results), and the avatar upload;
- the three save workflows:
  - publishing a work;
  - completing onboarding;
  - editing a profile;
- the form gates and sanitisers:
  - tag parser;
  - username sanitiser with its debounced availability check;
  - bounded and unbounded category toggles;
  - reject-note rule;
  - password-reset rule order;
  - invite-code sign-up flow;
- the moderation and admin screens: the queue and its counters, the
  busy marker, per-author counts, archive and delete, status and search
  filters, and the invite-code generator;
- the read models:
  - paginated feed;
  - optimistic like toggle;
  - notification read state, text and links;
  - relative-time labels;
  - author dashboard and "my works" aggregates;
- the route guard.

Every call into the backend (auth, database queries, RPCs, storage) is a
parameter of the operation that makes it: a signed-in user or none, the rows
returned, an error or success. The clock enters as the age of a timestamp in
milliseconds or as a supplied stamp. The random source of the invite-code
generator is a supplied sequence of alphabet indices.

Each source file has its own module:

- React components and hooks that keep state are classes. Their fields are the
  component's state, and their methods are the handlers, with `modifies`
  clauses.
- Derivations computed during render are functions with named results.
- The loops in the source are methods with loop invariants:
  - the results loop of `uploadWorkImages`;
  - `generateCode`;
  - the per-author `forEach` count.

Shared modules:

- `Base`: optional values, files, and `err instanceof Error`.
- `Seqs`: filter, take, stable sort, last-wins indexing, subsequences and sums.
- `Text`: the ECMAScript `trim`, ASCII `toLowerCase` and `toUpperCase`, `split`/`join`,
  `includes`, number rendering, and `length`. A Dafny string is a sequence of
  Unicode characters, while JavaScript's `length` counts UTF-16 code units,
  so a character above U+FFFF counts twice. Every length limit on typed
  text is stated with `Text.Utf16Length`.
- `TimeAgo`: the minute/hour/day bucketing shared by three `getTimeAgo` copies.

## Model

| member | source | states |
|---|---|---|
| WorkTypes.WorkCategories | types/work.ts:20-30 | nine distinct work categories, the last being "Otro" |
| ProfileTypes.ProfileCategories | types/profile.ts:27-38 | ten distinct profile categories |
| ProfileTypes.CareerYears | types/profile.ts:41-49 | seven distinct career-year answers |
| FeedTypes.AllSortOptions | types/feed.ts:31 | the four sort options, each once |
| FeedTypes.AllSortOptionsComplete | types/feed.ts:31 | no sort option is missing from the list |
| FeedTypes.ConfigOf | types/feed.ts:39-44 | every sort option orders descending |
| ImageUploader.HandleFiles | components/works/ImageUploader.tsx:15-28 | no file list leaves the selection unchanged. Otherwise: the result has at most IMAGES_MAX files; an old list within the cap is kept as a prefix; every added file is accepted; the length is the old count plus the accepted new files, capped at IMAGES_MAX |
| ImageUploader.HandleFilesKeepsOrder | components/works/ImageUploader.tsx:19-24 | the added files are a subsequence of the incoming files, so they keep their input order |
| ImageUploader.HandleFilesWithRoom | components/works/ImageUploader.tsx:18-24 | while the cap is not reached, the result is exactly the old list followed by every accepted new file |
| ImageUploader.HandleFilesSurvivors | components/works/ImageUploader.tsx:19-24 | with the old list within the cap, what follows it is exactly the first accepted new files, as many as fit under IMAGES_MAX |
| ImageUploader.DropIndex | components/works/ImageUploader.tsx:40 | the element at the given position is removed and the others are kept in order; an out-of-range position removes nothing |
| ImageUploader.RemoveFile | components/works/ImageUploader.tsx:38-43 | `removeFile(i)` drops exactly position i, keeping the others in order; an index outside the list is a no-op |
| ImageUploader.MoveFile | components/works/ImageUploader.tsx:45-54 | a destination outside the list is a no-op. Otherwise the result is a same-length permutation, with the moved file at `to` and the rest in their old relative order |
| ImageUploader.CanAddDecides | components/works/ImageUploader.tsx:56 | when `canAdd` is false, a further file changes nothing; with room, an accepted file is appended; a refused file never changes the list |
| Storage.Validate | lib/supabase/storage.ts:49-60 | size is checked before type: an oversize file gets the size error whatever its type; a file passes iff it is within the limit and of an accepted type |
| Storage.ValidateAgreesWithPicker | lib/supabase/storage.ts:57-60 | upload validation lets through exactly the files the picker keeps |
| Storage.Extension | lib/supabase/storage.ts:67 | the extension is never empty and never contains a dot |
| Storage.ExtensionOfDotted | lib/supabase/storage.ts:67 | for `base.ext`, the extension is `ext` lowercased, whatever `base` holds |
| Storage.ExtensionEdgeCases | lib/supabase/storage.ts:67 | a dotless name is its own (lowercased) extension; a name ending in a dot gets "jpg" |
| Storage.StoragePathParts | lib/supabase/storage.ts:68-69 | the path splits on '/' into user id, work id and file name; the file name reads back its order and extension |
| Storage.StoragePath | lib/supabase/storage.ts:68-69 | `{userId}/{workId}/{order}-{timestamp}.{ext}`; characterised by StoragePathParts and StoragePathsDistinct |
| Storage.StoragePathsDistinct | lib/supabase/storage.ts:68-69 | two paths of one work coincide only if their orders are equal, whatever the timestamps |
| Storage.UploadWorkImage | lib/supabase/storage.ts:42-102 | a validation error returns before any storage call, and so does an unreadable image. Otherwise the upload goes to the work's storage path. An upload error becomes its message or the fallback text. Success yields an image at the public url, with the file's dimensions, type and order |
| Storage.Results | lib/supabase/storage.ts:113-115 | one result per file, and each successful result at position i carries order i |
| Storage.ImagesOfOrdered | lib/supabase/storage.ts:120-126 | the collected images stand in strictly increasing order and each comes from the result at its own order |
| Storage.ImagesOf | lib/supabase/storage.ts:117-126 | the images the results loop pushes, in the order it meets them; characterised by ImagesOfOrdered, ImagesOfComplete and ImagesOfSuccesses |
| Storage.ImagesOfComplete | lib/supabase/storage.ts:117-126 | no successful upload is lost: each one's image is collected, and images exist iff some upload succeeded |
| Storage.ImagesOfSuccesses | lib/supabase/storage.ts:117-126 | there are exactly as many images as successful uploads, and the k-th image is the k-th successful upload's image |
| Storage.ErrorsOf | lib/supabase/storage.ts:117-124 | the truthy error messages the loop pushes; characterised by ErrorsOfSpec |
| Storage.ErrorsOfSpec | lib/supabase/storage.ts:117-124 | a message is collected iff it is non-empty and some upload failed with it |
| Storage.ImagesAndErrorsCount | lib/supabase/storage.ts:117-124 | images plus errors never exceed the files; when every failure has a message they add up to exactly the number of files |
| Storage.UploadWorkImages | lib/supabase/storage.ts:108-129 | the images and errors are those the results loop collects from the per-file results. The images stand in strictly increasing order, which is what the final sort produces, and each carries its own file's type. The errors are the non-empty failure messages, in file order |
| Avatar.Validate | lib/supabase/avatar.ts:14-21 | size before type; only jpeg, png and webp pass |
| Avatar.GifOnlyForWorks | lib/supabase/avatar.ts:18 | a gif is refused as an avatar but accepted as a work image |
| Avatar.AvatarPathParts | lib/supabase/avatar.ts:24-25 | the path is `{userId}/avatar-{timestamp}.{ext}` and its extension follows the work-image rule |
| Avatar.AvatarPath | lib/supabase/avatar.ts:24-25 | `{userId}/avatar-{timestamp}.{ext}`; characterised by AvatarPathParts |
| Avatar.UploadAvatar | lib/supabase/avatar.ts:10-45 | a validation failure returns its error and makes no storage call. A url is returned iff validation and upload both succeed, and then it is the public url of the avatar path. Exactly one of url and error is set. An upload error becomes its message, or the fallback text |
| CreateWork.UploadingProgressPlural | hooks/useCreateWork.ts:49 | the progress text names the file count and is plural exactly for more than one file |
| CreateWork.UploadingProgress | hooks/useCreateWork.ts:49 | the upload progress text; characterised by UploadingProgressPlural |
| CreateWork.PublishState.constructor | hooks/useCreateWork.ts:21-23 | starts idle with no progress, no error and no pending redirect |
| CreateWork.PublishState.Reset | hooks/useCreateWork.ts:27-31 | back to idle, empty progress, no error; a pending redirect timer is not cancelled |
| CreateWork.PublishState.RedirectFires | hooks/useCreateWork.ts:96-99 | a pending redirect timer navigates to "/dashboard" and then refreshes; it fires iff one was scheduled, once per publish that reached Done |
| CreateWork.PublishState.Publish | hooks/useCreateWork.ts:33-104 | the steps run in one of the four orders Error / Uploading-Error / Uploading-Saving-Error / Uploading-Saving-Done, and step Error holds iff an error is set. Without a user, nothing is uploaded. Without an image, nothing is inserted, progress stays at the upload text and the first upload error (or the no-image text) is shown. The inserted row is pending review, with the given id, author, title, description and category, null tags for an empty list, and exactly the images collected from the per-file results. A failed insert leaves the saving progress and the publish error; success leaves the sent progress and schedules exactly one redirect, and no other path schedules one |
| CreateWorkForm.TrimAll | components/works/CreateWorkForm.tsx:29 | each piece is trimmed, position by position |
| CreateWorkForm.TrimKeepsAbsence | components/works/CreateWorkForm.tsx:29 | trimming adds no character, so a comma-free piece stays comma-free |
| CreateWorkForm.ParseTags | components/works/CreateWorkForm.tsx:25-33 | at most TAGS_MAX tags, each non-empty, trimmed and free of commas |
| CreateWorkForm.PieceClean | components/works/CreateWorkForm.tsx:27-30 | a comma-free piece with something left after trimming becomes a clean tag |
| CreateWorkForm.KeptAreClean | components/works/CreateWorkForm.tsx:27-30 | every tag that survives the split, trim and filter is clean |
| CreateWorkForm.ParseTagsJoin | components/works/CreateWorkForm.tsx:25-33 | parsing clean tags joined by commas gives back the first eight of them, in order, duplicates included |
| CreateWorkForm.PreviewGateEdges | components/works/CreateWorkForm.tsx:36-40 | a title made only of blanks never passes the preview gate, however long it is |
| CreateWorkForm.CanGoToDetails | components/works/CreateWorkForm.tsx:35 | `canGoToDetails`: at least IMAGES_MIN files; used by Form.NextToDetails and kept by Form.Valid |
| CreateWorkForm.CanGoToPreview | components/works/CreateWorkForm.tsx:36-40 | `canGoToPreview`: trimmed title of 1 to 150 UTF-16 code units, untrimmed description of at least 120, a category; characterised by PreviewGateEdges, used by Form.NextToPreview and Form.PublishRequest |
| CreateWorkForm.IsPublishing | components/works/CreateWorkForm.tsx:41 | `isPublishing`: any publish step but idle and error; it blocks Form.BackToDetails and Form.PublishRequest |
| CreateWorkForm.IsPast | components/works/CreateWorkForm.tsx:98-100 | an indicator step is past when it comes before the current one; characterised by IsPastMeansEarlier |
| CreateWorkForm.IsPastMeansEarlier | components/works/CreateWorkForm.tsx:98-100 | an indicator step is "past" exactly when it comes earlier in the form |
| CreateWorkForm.Form.constructor | components/works/CreateWorkForm.tsx:14-19 | empty fields, on the images step |
| CreateWorkForm.Form.SetFiles | components/works/CreateWorkForm.tsx:150 | the uploader changes the files only on the images step |
| CreateWorkForm.Form.EditDetails | components/works/CreateWorkForm.tsx:165-242 | the detail inputs change the fields only on the details step |
| CreateWorkForm.Form.NextToDetails | components/works/CreateWorkForm.tsx:154-155 | moves to details only from images and only with at least IMAGES_MIN files |
| CreateWorkForm.Form.BackToImages | components/works/CreateWorkForm.tsx:264 | from details back to images |
| CreateWorkForm.Form.NextToPreview | components/works/CreateWorkForm.tsx:271-272 | moves to the preview only when the details pass the gate |
| CreateWorkForm.Form.BackToDetails | components/works/CreateWorkForm.tsx:378-379 | back from the preview, unless a publish is under way |
| CreateWorkForm.Form.IndicatorClick | components/works/CreateWorkForm.tsx:105-107 | a click jumps only to a past step, so the step never moves forward; the gate invariant is kept |
| CreateWorkForm.Form.PublishRequest | components/works/CreateWorkForm.tsx:44-52 | a request is made iff the gate holds and nothing is publishing; it carries the files, the trimmed title and description, the category and the parsed tags |
| CreateWorkForm.Form.PreviewAlwaysPublishes | components/works/CreateWorkForm.tsx:44-52 | on the preview step, with no publish under way, the button always sends at least one file and a non-empty title |
| Onboarding.SanitizeUsername | components/onboarding/OnboardingForm.tsx:62 | the result is no longer than the input, made only of `[a-z0-9_]`, and holds exactly the characters of the lower-cased input that are in that set |
| Onboarding.SanitizeOneChar | components/onboarding/OnboardingForm.tsx:62 | one character is lower-cased and kept exactly when it is in `[a-z0-9_]`; `A`..`Z` survive as `a`..`z` |
| Onboarding.SanitizeConcat | components/onboarding/OnboardingForm.tsx:62 | sanitising distributes over concatenation, so with SanitizeOneChar the result of every input is fixed |
| Onboarding.SanitizeKeepsOrder | components/onboarding/OnboardingForm.tsx:62 | the kept characters are a subsequence of the lower-cased input |
| Onboarding.SanitizedLength | components/onboarding/OnboardingForm.tsx:68 | a sanitised name's UTF-16 length is its number of characters |
| Onboarding.SanitizeFixesClean | components/onboarding/OnboardingForm.tsx:62 | a name already made of `[a-z0-9_]` is unchanged |
| Onboarding.SanitizeIdempotent | components/onboarding/OnboardingForm.tsx:62 | sanitising twice equals sanitising once |
| Onboarding.ToggleBounded | components/onboarding/OnboardingForm.tsx:80-86 | a present category is removed and nothing else changes membership; an absent one is appended below the cap; at the cap nothing changes |
| Onboarding.ToggleBoundedKeepsBounds | components/onboarding/OnboardingForm.tsx:80-86 | the toggle never duplicates a category and never exceeds the cap |
| Onboarding.ToggleBoundedUndo | components/onboarding/OnboardingForm.tsx:80-86 | adding a category and toggling it again restores the list |
| Onboarding.DisabledMeansNoOp | components/onboarding/OnboardingForm.tsx:436-438 | a category button is disabled exactly when a click on it would change nothing |
| Onboarding.CanSubmitAfterToggle | components/onboarding/OnboardingForm.tsx:100-102 | within the cap, the toggled list can be submitted iff it is non-empty |
| Onboarding.IdentityFilled | components/onboarding/OnboardingForm.tsx:89-91 | a trimmed name of two or more UTF-16 code units and a username of at least USERNAME_MIN; shared by `canStep2` and the form's invariant |
| Onboarding.CanStep2 | components/onboarding/OnboardingForm.tsx:89-92 | `canStep2`: the identity is filled and the username is confirmed available; characterised by StepGatesTrim, used by Form.Navigate |
| Onboarding.CanStep3 | components/onboarding/OnboardingForm.tsx:94-98 | `canStep3`: a bio within bounds as typed, a school with a visible character, a career year; characterised by StepGatesTrim, used by Form.Navigate |
| Onboarding.CanSubmit | components/onboarding/OnboardingForm.tsx:100-102 | `canSubmit`: one or two categories; characterised by CanSubmitAfterToggle, used by Form.SubmitRequest |
| Onboarding.StepGatesTrim | components/onboarding/OnboardingForm.tsx:89-98 | blanks around the name or the school change neither gate, and step 2 needs a school with a non-blank character |
| Onboarding.InitialFullName | components/onboarding/OnboardingForm.tsx:18-20 | the placeholder "New User" starts as an empty name; any other name is kept |
| Onboarding.Form.constructor | components/onboarding/OnboardingForm.tsx:16-34 | step 1, the initial name, empty fields, idle status, no timer and no check in flight |
| Onboarding.Form.HandleAvatarChange | components/onboarding/OnboardingForm.tsx:44-56 | no file does nothing; an oversize file raises the size alert and keeps the old file; any other file is taken |
| Onboarding.Form.HandleUsernameChange | components/onboarding/OnboardingForm.tsx:59-77 | on step 1 the field takes the sanitised input and any pending timer is cancelled. A name of at least USERNAME_MIN characters (a sanitised name's UTF-16 length, which is its character count) goes to "checking" with a check scheduled for it; a shorter one goes to idle with nothing scheduled. Other steps change nothing |
| Onboarding.Form.TimerFires | components/onboarding/OnboardingForm.tsx:70-73 | the scheduled check, if any, is sent and the timer cleared |
| Onboarding.Form.CheckResolves | components/onboarding/OnboardingForm.tsx:71-72 | as written: any answered check sets the status to available or taken, whatever name it was for; the answered check leaves the in-flight list |
| Onboarding.Form.CheckResolvesCurrent | components/onboarding/OnboardingForm.tsx:71-72 | corrected: an answer changes the status only when it is for the name now in the field, so "available" is shown only for a name that was confirmed free |
| Onboarding.Form.ToggleCategory | components/onboarding/OnboardingForm.tsx:80-86 | the categories become the capped toggle of the old list |
| Onboarding.Form.SetFullName | components/onboarding/OnboardingForm.tsx:233 | the name input changes the name on step 1 only |
| Onboarding.Form.SetAbout | components/onboarding/OnboardingForm.tsx:345-388 | the bio, school and year inputs change those fields on step 2 only |
| Onboarding.Form.Navigate | components/onboarding/OnboardingForm.tsx:326-518 | the step moves forward exactly when a forward click's gate holds (`canStep2`, `canStep3`). It moves back exactly on a back click from step 2, or from step 3 while not saving. Every move is a single step |
| Onboarding.Form.SubmitRequest | components/onboarding/OnboardingForm.tsx:105-119 | a save is sent iff one or two categories are chosen and no save is under way. It carries the trimmed name, bio and school, a null avatar url and the chosen file |
| Onboarding.StaleAnswerExample | components/onboarding/OnboardingForm.tsx:70-73 | as written, an answer for an older name marks a newer, unchecked name "available" |
| OnboardingSave.Matches | hooks/useOnboarding.ts:35-40 | the query selects exactly the profiles with that username and another id |
| OnboardingSave.CheckUsername | hooks/useOnboarding.ts:28-43 | false without a user. A failed query reads as available. Otherwise a name is available iff the query does not return exactly one other profile with it, which is how `maybeSingle` behaves |
| OnboardingSave.CheckUsernameIffFree | hooks/useOnboarding.ts:28-43 | with unique usernames and a working query, a signed-in user is told "available" iff no other profile has that name |
| OnboardingSave.SingleMatchPerName | hooks/useOnboarding.ts:35-40 | with unique usernames, the query finds at most one row |
| OnboardingSave.SaveState.constructor | hooks/useOnboarding.ts:21-23 | starts idle with no progress, no error and no pending redirect |
| OnboardingSave.SaveState.RedirectFires | hooks/useOnboarding.ts:98-101 | a pending redirect timer navigates to "/dashboard" and then refreshes; it fires iff one was scheduled, once per save that reached Done |
| OnboardingSave.Trace | hooks/useOnboarding.ts:55-104 | the steps a signed-in save sets, from whether the name was free, the upload failed and the update failed; characterised by TraceShape |
| OnboardingSave.TraceShape | hooks/useOnboarding.ts:55-104 | every trace is one of the six signed-in orders; uploading iff the name is free and a picture is given, saving iff the name is free and no upload failed, `done` iff the update also succeeded |
| OnboardingSave.SaveState.Save | hooks/useOnboarding.ts:47-106 | without a user the only step is Error with "No autenticado" and the progress is kept. With a user the steps are exactly Trace of the name check, the picture, the upload outcome and the update outcome, so a free name with no picture or a good upload always reaches Saving. Step Error holds iff an error is set. A taken name sets its error with the checking progress; an upload error is the error, with the uploading progress; a failed update sets its message, with the saving progress. The profile update targets the signed-in user's row (`.eq("id", user.id)`), carries the uploaded url or the payload's and sets `onboarding_completed`; it is sent iff Saving is reached. Reaching Done schedules exactly one redirect, and no other path schedules one |
| OnboardingSave.SaveState.Store | hooks/useOnboarding.ts:65-101 | after the name check: the steps are Trace of a free name, the picture, the upload outcome and the update outcome; an upload error is the error, with the uploading progress; a failed update sets its message, with the saving progress. The update targets the user's row and `avatar_url` is the uploaded url or the payload's. Reaching Done schedules exactly one redirect |
| EditProfile.OrNull | components/profile/EditProfileForm.tsx:91-92 | the empty string is stored as null, anything else as itself |
| EditProfile.OnboardedIsValid | components/profile/EditProfileForm.tsx:62-67 | whatever passed the onboarding gates passes the editor's `isValid` |
| EditProfile.IsValid | components/profile/EditProfileForm.tsx:62-67 | `isValid`: trimmed name of two or more UTF-16 code units, bio within bounds as typed, one or two categories; characterised by OnboardedIsValid and EditorAcceptsNoSchool |
| EditProfile.EditorAcceptsNoSchool | components/profile/EditProfileForm.tsx:62-67 | the converse fails: any name, bio and categories that pass onboarding, with an empty school, pass the editor's `isValid` and fail onboarding's `canStep3` |
| EditProfile.Editor.constructor | components/profile/EditProfileForm.tsx:20-33 | seeded from the stored profile, with absent texts empty and absent categories none |
| EditProfile.Editor.HandleAvatarChange | components/profile/EditProfileForm.tsx:40-52 | no file does nothing; an oversize file sets the size error and keeps the selected file; any other file is taken |
| EditProfile.Editor.ToggleCategory | components/profile/EditProfileForm.tsx:54-60 | the same capped toggle as onboarding, so the list stays within CATEGORIES_MAX without duplicates |
| EditProfile.Editor.HandleSave | components/profile/EditProfileForm.tsx:69-109 | nothing happens when the form is invalid or a save is already running; otherwise `saving` is false afterwards. The old avatar url is kept unless a file is chosen, and an upload failure means no update. The update targets the edited profile's row (`.eq("id", profile.id)`) and carries the trimmed texts, with an empty school or year stored as null. A failed update sets its message, and success is shown only after a successful update. The update is sent iff the form is valid, no save is running and there is no picture or its upload succeeded |
| EditProfile.Editor.SuccessExpires | components/profile/EditProfileForm.tsx:100-103 | the timer refreshes the route and hides the success notice |
| Moderation.ToQueueWork | hooks/useModeration.ts:62-77 | the work's own columns (id, author id, title, description, category, tags, status, creation and publication times) are copied and missing images become an empty list; each author field is the joined profile's value, or "", "Unknown", null and 0 where the profile or the value is missing |
| Moderation.QueueOf | hooks/useModeration.ts:37-79 | the loaded queue is no longer than the table |
| Moderation.QueueOfMembers | hooks/useModeration.ts:57 | the queue holds pending works only, every pending work of the table, one entry per pending row |
| Moderation.QueueOfOrdered | hooks/useModeration.ts:58 | the queue is in ascending creation time |
| Seqs.SortByStable | components/profile/AuthorDashboard.tsx:41-45 | the sort behind the dashboard's top works, the queue order and the image order is stable: the elements of any one key come out in their input order |
| Moderation.Without | hooks/useModeration.ts:135 | removal keeps exactly the works with a different id |
| Moderation.WithoutKeepsInvariant | hooks/useModeration.ts:135 | removal keeps the queue ordered and pending-only, as a subsequence of the old queue |
| Moderation.DecrementFloor | hooks/useModeration.ts:138 | a positive count drops by one; zero stays zero |
| Moderation.State.constructor | hooks/useModeration.ts:24-28 | empty queue and history, loading, zero counters |
| Moderation.State.FetchQueue | hooks/useModeration.ts:32-116 | a failed query sets the error and keeps queue, counters and history. Otherwise the queue is the pending works, oldest first; the counters are the supplied counts, with absent ones as 0; the history is the log rows, or none. Loading ends either way |
| Moderation.State.Approve | hooks/useModeration.ts:122-152 | the call is an approve with no note. A transport error or a refusal changes nothing and refreshes nothing. Success removes the work, lowers pending with a floor at zero, raises approved and refreshes the counters |
| Moderation.State.Reject | hooks/useModeration.ts:154-178 | the call is a reject carrying the note. A transport error or a refusal changes nothing. Success removes the work, lowers pending with a floor at zero and raises rejected |
| ModerationPanel.FeedbackFor | components/moderation/ModerationPanel.tsx:27-31 | the banner is a success iff the result is; it shows the fixed text, the result's error or the fallback |
| ModerationPanel.Panel.constructor | components/moderation/ModerationPanel.tsx:15-19 | no busy work and no banner |
| ModerationPanel.Panel.Begin | components/moderation/ModerationPanel.tsx:23-24 | the slot names the work and the banner is cleared |
| ModerationPanel.Panel.Finish | components/moderation/ModerationPanel.tsx:26-32 | the slot is emptied whatever the outcome and the banner reflects the result |
| ModerationPanel.Panel.HandleApprove | components/moderation/ModerationPanel.tsx:21-35 | only on success does the queue lose the work, with pending decremented (floored at 0) and approved incremented; on failure queue and counters are unchanged. The slot ends empty and the banner shows the result |
| ModerationPanel.Panel.HandleReject | components/moderation/ModerationPanel.tsx:37-51 | the same for a rejection, with rejected incremented instead of approved and its own texts |
| ModerationPanel.Panel.OverlappingActions | components/moderation/ModerationPanel.tsx:21-35 | a second action started before the first answers loses its loading mark when the first answers: neither preview shows loading, and the banner reports the first work |
| ModerationPanel.Panel.FeedbackExpires | components/moderation/ModerationPanel.tsx:29 | the timer hides the banner |
| WorkPreview.LabelInjective | components/moderation/WorkPreview.tsx:188-199 | different buckets give different labels |
| WorkPreview.SameLabelSameBucket | components/moderation/WorkPreview.tsx:188-199 | two ages read the same iff they fall in the same minute, hour or day bucket |
| WorkPreview.PaddingDoesNotCount | components/moderation/WorkPreview.tsx:27 | a note passes iff its trimmed text passes, so blanks around it neither help nor hurt |
| WorkPreview.NoteAccepted | components/moderation/WorkPreview.tsx:27 | the trimmed note has at least ten UTF-16 code units; characterised by PaddingDoesNotCount, used by Preview.ConfirmReject |
| WorkPreview.GetTimeAgo | components/moderation/WorkPreview.tsx:188-199 | the preview's "Hace ..." label; characterised by LabelInjective and SameLabelSameBucket |
| WorkPreview.Preview.constructor | components/moderation/WorkPreview.tsx:20-22 | form hidden, empty note and error |
| WorkPreview.Preview.Approve | components/moderation/WorkPreview.tsx:133-134 | approving is possible iff the reject form is hidden and the work is not loading |
| WorkPreview.Preview.OpenReject | components/moderation/WorkPreview.tsx:140-141 | the reject button opens the form unless loading |
| WorkPreview.Preview.SetNote | components/moderation/WorkPreview.tsx:154 | the note changes only while the form is shown |
| WorkPreview.Preview.ConfirmReject | components/moderation/WorkPreview.tsx:26-33 | nothing happens unless the form is shown and not loading. A trimmed note under ten UTF-16 code units sets the error and sends nothing. An accepted note clears the error and is sent trimmed, at least ten characters long |
| WorkPreview.Preview.Cancel | components/moderation/WorkPreview.tsx:171-176 | unless loading, hides the form and clears note and error |
| TimeAgo.Bucket | components/moderation/WorkPreview.tsx:188-199 | the nested floors give the exact whole number of minutes, hours or days the age spans, with "now" iff under a minute |
| UsersManager.Bump | components/moderation/UsersManager.tsx:62-66 | one status raises its own counter; a draft raises none |
| UsersManager.TallySpec | components/moderation/UsersManager.tsx:58-67 | an author has an entry iff some work is theirs, and the entry holds their numbers of approved, pending and rejected works |
| UsersManager.Tally | components/moderation/UsersManager.tsx:58-67 | per author, the numbers of approved, pending and rejected works; characterised by TallySpec and computed by TallyCounts |
| UsersManager.TallyCounts | components/moderation/UsersManager.tsx:54-67 | the `forEach` builds exactly that tally |
| UsersManager.Attach | components/moderation/UsersManager.tsx:69-76 | each profile gets its counts, zero when it has no works |
| UsersManager.SetActive | components/moderation/UsersManager.tsx:97-101 | the map keeps the list's length |
| UsersManager.SetActiveSpec | components/moderation/UsersManager.tsx:97-101 | only the rows with that id change, and only in `is_active` |
| UsersManager.SetActiveIdempotent | components/moderation/UsersManager.tsx:97-101 | setting the flag twice equals setting it once |
| UsersManager.Filtered | components/moderation/UsersManager.tsx:112-118 | an empty search shows everyone. Otherwise exactly the users whose name or username contains the search, ignoring ASCII case, in order |
| UsersManager.Matches | components/moderation/UsersManager.tsx:114-117 | the name or the username contains the search, ignoring ASCII case; used by Filtered |
| UsersManager.ActiveInactivePartition | components/moderation/UsersManager.tsx:120-121 | active plus inactive counts equal the number of users |
| UsersManager.ActionFor | components/moderation/UsersManager.tsx:251-270 | a founder has no action; otherwise the button flips the flag |
| UsersManager.Manager.constructor | components/moderation/UsersManager.tsx:24-32 | no users, loading, no busy id, no dialog |
| UsersManager.Manager.FetchUsers | components/moderation/UsersManager.tsx:35-82 | a failed profile query keeps the list; otherwise the list is the profiles with their tallied counts (missing works read as none). Loading ends either way |
| UsersManager.Manager.HandleToggleActive | components/moderation/UsersManager.tsx:88-110 | success sets that user's flag; failure changes nothing. The busy slot and the dialog are cleared either way |
| UsersManager.Manager.ActionClicked | components/moderation/UsersManager.tsx:251-270 | founders have no button, so nothing changes. Deactivation only opens the confirm dialog for that user. Reactivation acts at once: on success only that user's flag changes, on failure the list is kept; the busy slot and the dialog end empty either way |
| UsersManager.Manager.ConfirmDeactivate | components/moderation/UsersManager.tsx:313-314 | with a dialog open, the named user is deactivated unless the call fails, in which case the list is kept, and the slot ends empty; without a dialog the list and slot are unchanged. The dialog ends closed |
| UsersManager.Manager.CancelConfirm | components/moderation/UsersManager.tsx:307 | closes the dialog |
| WorksManager.Join | components/moderation/WorksManager.tsx:59-65 | an author missing from the map shows as "—"; a present one shows its name and username, each defaulting to "—" |
| WorksManager.JoinAll | components/moderation/WorksManager.tsx:59-65 | each work is joined in place |
| WorksManager.JoinMissingAuthor | components/moderation/WorksManager.tsx:54-63 | an author absent from the profile rows reads "—" for both fields |
| WorksManager.JoinLastProfile | components/moderation/WorksManager.tsx:54-63 | a present author reads the last profile row stored for that id |
| WorksManager.SetArchived | components/moderation/WorksManager.tsx:86-90 | only the rows with that id change, and only in `archived` |
| WorksManager.ArchiveUndo | components/moderation/WorksManager.tsx:86-90 | archiving then restoring gives back the list |
| WorksManager.Without | components/moderation/WorksManager.tsx:108 | deletion keeps exactly the other works, in order |
| WorksManager.ArchiveMovesTabs | components/moderation/WorksManager.tsx:86-90 | archiving puts the work in the "archived" tab and out of "approved"; restoring an approved work puts it back in "approved"; no other work changes tab |
| WorksManager.InTab | components/moderation/WorksManager.tsx:120-127 | the tab rule: all works, approved and not archived, or archived; characterised by ArchiveMovesTabs, used by Visible |
| WorksManager.MatchesSearch | components/moderation/WorksManager.tsx:129-134 | the title or the author name contains the search, ignoring ASCII case; used by Visible |
| WorksManager.Visible | components/moderation/WorksManager.tsx:119-135 | the listing is exactly the works that are in the tab and match the search (ignoring ASCII case), kept in the query's newest-first order: one filter by the conjunction, so a subsequence of the fetched list; "all" with no search shows the list unchanged |
| WorksManager.Shown | components/moderation/WorksManager.tsx:119-135 | the listing condition: in the tab, and matching the search when it is not empty; used by Visible |
| WorksManager.Manager.constructor | components/moderation/WorksManager.tsx:24-32 | no works, loading, no busy id, no dialog |
| WorksManager.Manager.FetchWorks | components/moderation/WorksManager.tsx:35-71 | a failed query keeps the list; otherwise each work is joined to the last profile row of its author |
| WorksManager.Manager.HandleArchive | components/moderation/WorksManager.tsx:77-98 | success sets that work's flag; failure changes nothing; the busy slot is cleared |
| WorksManager.Manager.HandleDelete | components/moderation/WorksManager.tsx:100-117 | success removes the work; failure changes nothing; the busy slot and the dialog are cleared |
| InviteCodes.AlphabetDistinct | components/moderation/InviteCodesManager.tsx:20 | the alphabet has 32 characters, all different |
| InviteCodes.NoLookAlikes | components/moderation/InviteCodesManager.tsx:20 | none of I, O, 0 and 1 is in the alphabet |
| InviteCodes.Code | components/moderation/InviteCodesManager.tsx:19-26 | the code has the requested length and its i-th character is the alphabet entry drawn i-th |
| InviteCodes.CodeInAlphabet | components/moderation/InviteCodesManager.tsx:19-26 | every character comes from the alphabet, so no code holds a look-alike |
| InviteCodes.CodeDeterminesPicks | components/moderation/InviteCodesManager.tsx:19-26 | equal codes come from equal draws |
| InviteCodes.GenerateCode | components/moderation/InviteCodesManager.tsx:19-26 | the loop builds exactly the code of the draws |
| InviteCodes.NewCodes | components/moderation/InviteCodesManager.tsx:97-101 | `quantity` rows, each an 8-character code of its own draws, with the founder's id and the role |
| InviteCodes.ClaimerName | components/moderation/InviteCodesManager.tsx:75 | an unclaimed code has no name; a claimed code has its claimer's name, or "—" when the claimer is unknown |
| InviteCodes.ListAll | components/moderation/InviteCodesManager.tsx:72-77 | each code is listed with its claimer name |
| InviteCodes.AvailableClaimedPartition | components/moderation/InviteCodesManager.tsx:123-124 | available and claimed split the list: each code is in exactly one, and a code shows a claimer iff it is claimed |
| InviteCodes.Manager.constructor | components/moderation/InviteCodesManager.tsx:29-31 | no codes, loading, not generating |
| InviteCodes.Manager.FetchCodes | components/moderation/InviteCodesManager.tsx:37-83 | without a user, or after a failed query, the list is kept. Otherwise each code is listed with its claimer's name, looked up in the profiles only when some code is claimed. Loading ends either way |
| InviteCodes.Manager.HandleGenerate | components/moderation/InviteCodesManager.tsx:89-115 | without a user nothing is inserted and the list is kept. Otherwise `quantity` codes are inserted, each an 8-character code of its own draws, with the user's id and the role. A successful insert reloads the list as `fetchCodes` does; a failed one keeps it. `generating` ends false |
| Feed.Request | hooks/useFeed.ts:38-48 | page p asks for the ten rows from offset 10·p, by the option's column descending, then by `created_at` descending |
| Feed.PagesTile | hooks/useFeed.ts:39-40 | consecutive pages are adjacent, and an offset lies in page p iff p = offset div 10 |
| Feed.PageOf | hooks/useFeed.ts:48 | a page holds at most ten rows, and a full ten iff the listing reaches the end of that page |
| Feed.AppendNextPage | hooks/useFeed.ts:53 | appending page p+1 to the first p+1 pages gives the first p+2 pages |
| Feed.AppendSkippedPage | hooks/useFeed.ts:53 | appending page p+2 there instead loses the first row of page p+1 |
| Feed.Feed.constructor | hooks/useFeed.ts:22-28 | empty, loading, more expected, sort "popular", page 0 |
| Feed.Feed.FetchFeed | hooks/useFeed.ts:32-65 | rows are appended or replace the list, and `hasMore` is whether a full page came back. A failure keeps the list and sets an error. Both flags end false |
| Feed.Feed.Reload | hooks/useFeed.ts:32-70 | back to page 0 with the first page's query, both loading flags false. Rows replace the list, clear the error, and leave `hasMore` true iff a full page came back; the first page of a listing makes the feed show that listing's leading rows. A failure keeps the list and `hasMore` and sets the load error with the thrown message |
| Feed.Feed.SetSortBy | hooks/useFeed.ts:67-74 | the same sort changes nothing at all. A new sort is stored and reloads from page 0 with Reload's outcome: rows replace the list with `hasMore` from the page size, a failure keeps list and `hasMore` and sets the error; both flags end false |
| Feed.Feed.LoadMore | hooks/useFeed.ts:32-81 | ignored, changing nothing, while loading or when nothing more is expected. Otherwise it asks for the next page and, as written, advances the page even when the fetch fails; both flags end false. Rows are appended with `hasMore` from the page size and the error cleared, so after the right page the list is still the leading pages of the listing. A failure keeps list and `hasMore` and sets the error |
| Feed.Feed.LoadMoreCorrected | hooks/useFeed.ts:32-81 | corrected: the same, except that the page advances only when rows arrive, so the list stays the leading pages after a failure too |
| Feed.FailedLoadMoreSkipsPage | hooks/useFeed.ts:76-81 | as written, a failed load followed by a successful one never shows the first row of the skipped page |
| Like.RevertUndoesMove | hooks/useLike.ts:43-67 | the revert undoes the optimistic count exactly, and two opposite moves cancel |
| Like.LikeState.constructor | hooks/useLike.ts:15-18 | not liked, the initial count, not loading, no user |
| Like.LikeState.LoadUser | hooks/useLike.ts:22-37 | a signed-in user is kept and `liked` is whether their like row exists; no user changes nothing |
| Like.LikeState.Start | hooks/useLike.ts:39-63 | ignored without a user or while a call runs. Otherwise `liked` flips, the count moves by one and a delete (was liked) or insert (was not) is issued |
| Like.LikeState.Finish | hooks/useLike.ts:64-70 | a failure restores `liked` and reverts the count; success keeps both; loading ends |
| Like.FailedToggleRestores | hooks/useLike.ts:39-71 | a toggle whose call fails ends exactly where it began |
| Like.ToggleTwiceRestores | hooks/useLike.ts:39-71 | two successful toggles end where they began |
| Notifications.UnreadCount | hooks/useNotifications.ts:50 | the unread count never exceeds the list |
| Notifications.UnreadCountZero | hooks/useNotifications.ts:50 | the count is zero iff every notification has a read stamp |
| Notifications.MarkRead | hooks/useNotifications.ts:56-60 | the length is kept and only `read_at` changes: listed ids get the stamp, all others are untouched |
| Notifications.MarkAll | hooks/useNotifications.ts:71-75 | an existing stamp is never replaced; every unread notification gets the new one |
| Notifications.MarkReadUnread | hooks/useNotifications.ts:56-60 | afterwards the unread ones are exactly those unread before and not listed, so the count never grows |
| Notifications.MarkAllClearsUnread | hooks/useNotifications.ts:71-75 | after marking all, nothing is unread |
| Notifications.MarkListedUnreadClears | hooks/useNotifications.ts:56-60 | marking a list that holds every unread id also leaves nothing unread |
| Notifications.Store.constructor | hooks/useNotifications.ts:18-19 | empty and loading |
| Notifications.Store.Fetch | hooks/useNotifications.ts:22-44 | no user or a failed query keeps the list; otherwise the rows (none when absent). Loading ends either way |
| Notifications.Store.MarkAsRead | hooks/useNotifications.ts:52-66 | a thrown call changes nothing; otherwise the listed ids are stamped, and the unread count never rises |
| Notifications.Store.MarkAllRead | hooks/useNotifications.ts:68-79 | a thrown call changes nothing; otherwise every unread one is stamped and the count is zero |
| NotificationBell.Coarse | components/notifications/NotificationBell.tsx:9-19 | seven days or more read as whole weeks, at least one; fewer stay days |
| NotificationBell.LabelInjective | components/notifications/NotificationBell.tsx:9-19 | different shown spans read differently |
| NotificationBell.SameLabelSameSpan | components/notifications/NotificationBell.tsx:9-19 | two ages read the same iff they fall in the same minute, hour, day or week span |
| NotificationBell.GetTimeAgo | components/notifications/NotificationBell.tsx:9-19 | the bell's relative time, in weeks from the seventh day; characterised by Coarse and SameLabelSameSpan |
| NotificationBell.WorkLink | components/notifications/NotificationBell.tsx:27-44 | a link exists iff the target id is truthy, and it is the work page of that id |
| NotificationBell.LinkRule | components/notifications/NotificationBell.tsx:21-60 | a rejection links to "my works", an unknown kind has the generic text and no link, the other kinds link to their work; any work link is to the target |
| NotificationBell.ContentOf | components/notifications/NotificationBell.tsx:21-60 | the text and link of a notification by kind; characterised by WorkLink, LinkRule and RejectionNote |
| NotificationBell.RejectionNote | components/notifications/NotificationBell.tsx:45-52 | a rejection shows ": note" iff the note is truthy |
| NotificationBell.Badge | components/notifications/NotificationBell.tsx:115-118 | no badge iff nothing is unread; "9+" iff more than nine |
| NotificationBell.BadgeDigit | components/notifications/NotificationBell.tsx:115-118 | one to nine unread show as the single digit that reads back as the count |
| NotificationBell.Ids | components/notifications/NotificationBell.tsx:85 | the ids, position by position |
| NotificationBell.AutoMarkIds | components/notifications/NotificationBell.tsx:80-92 | only an open panel with unread notifications schedules a mark, of one to twenty ids: the first twenty unread, in order |
| NotificationBell.AutoMarkSchedule | components/notifications/NotificationBell.tsx:80-92 | with the store's count, a mark is scheduled iff the panel is open and something is unread |
| NotificationBell.AutoMarkUnread | components/notifications/NotificationBell.tsx:82-85 | every scheduled id is that of an unread notification |
| NotificationBell.Bell.constructor | components/notifications/NotificationBell.tsx:64 | closed, nothing scheduled |
| NotificationBell.Bell.Effect | components/notifications/NotificationBell.tsx:80-92 | the previous timer is replaced by the current schedule |
| NotificationBell.Bell.Toggle | components/notifications/NotificationBell.tsx:98 | flips the panel and recomputes the schedule for the new state, so closing cancels a pending mark |
| NotificationBell.Bell.Close | components/notifications/NotificationBell.tsx:69-77 | a click outside closes the panel and cancels a pending mark |
| NotificationBell.Bell.Fire | components/notifications/NotificationBell.tsx:88 | the panel stays as it was. On success the scheduled ids are marked read and the effect re-runs on the new list; a thrown call changes no list and leaves nothing scheduled |
| Comments.PaddingCounts | components/works/CommentsSection.tsx:20 | the untrimmed length counts: ninety-nine letters and a blank pass, though trimmed they are too short |
| Comments.IsValid | components/works/CommentsSection.tsx:19-20 | `isValid`: untrimmed content of at least 100 UTF-16 code units and a category; characterised by LengthInCodeUnits and PaddingCounts, used by Composer.Submit |
| Comments.LengthInCodeUnits | components/works/CommentsSection.tsx:19-20 | the length is in UTF-16 code units: text wholly above U+FFFF passes with fifty characters, text without such characters needs a hundred |
| Comments.Toggle | components/works/CommentsSection.tsx:22-26 | a chosen category is removed; any other is appended, with no cap |
| Comments.ToggleKeepsDistinct | components/works/CommentsSection.tsx:22-26 | the toggle never duplicates a category |
| Comments.ToggleUndo | components/works/CommentsSection.tsx:22-26 | adding then toggling again restores the list |
| Comments.ToggleIsUncapped | components/works/CommentsSection.tsx:22-26 | below any cap it agrees with the onboarding toggle |
| Comments.HeaderCount | components/works/CommentsSection.tsx:55 | the loaded count, or the initial count when none are loaded |
| Comments.LabelsAgree | components/works/CommentsSection.tsx:38-47 | past the first minute the moderation label is "Hace " plus this one, and the bell's label agrees under seven days |
| Comments.GetTimeAgo | components/works/CommentsSection.tsx:38-47 | the comment's relative time; characterised by LabelsAgree and SameLabelSameBucket |
| Comments.SameLabelSameBucket | components/works/CommentsSection.tsx:38-47 | two ages read the same iff they fall in the same bucket |
| Comments.Composer.constructor | components/works/CommentsSection.tsx:15-17 | empty content and categories, form hidden |
| Comments.Composer.Open | components/works/CommentsSection.tsx:60 | shows the form |
| Comments.Composer.ToggleCategory | components/works/CommentsSection.tsx:22-26 | the categories become the uncapped toggle of the old list |
| Comments.Composer.Submit | components/works/CommentsSection.tsx:28-36 | nothing is posted when invalid or posting. Otherwise the trimmed content and the categories are posted; success clears and hides the form, failure keeps it |
| Comments.Composer.Cancel | components/works/CommentsSection.tsx:117-121 | hides the form and clears content and categories |
| Dashboard.StatusSplit | components/profile/AuthorDashboard.tsx:32-34 | the three status lists and the rest add up to all works |
| Dashboard.TotalsCountApprovedOnly | components/profile/AuthorDashboard.tsx:36-38 | one more work adds its likes, comments and views to the totals iff it is approved |
| Dashboard.TotalLikes | components/profile/AuthorDashboard.tsx:36 | the sum of the approved works' likes; characterised by TotalsCountApprovedOnly |
| Dashboard.TotalComments | components/profile/AuthorDashboard.tsx:37 | the sum of the approved works' comments; characterised by TotalsCountApprovedOnly |
| Dashboard.TotalViews | components/profile/AuthorDashboard.tsx:38 | the sum of the approved works' views; characterised by TotalsCountApprovedOnly |
| Dashboard.TopWorks | components/profile/AuthorDashboard.tsx:41-46 | at most five works |
| Dashboard.TopWorksOrdered | components/profile/AuthorDashboard.tsx:41-46 | as many approved works as five allows, by engagement non-increasing |
| Dashboard.TopWorksMaximal | components/profile/AuthorDashboard.tsx:41-46 | the top works are drawn from the approved ones, and no approved work left out is more engaging than one shown |
| Dashboard.LevelLabel | components/profile/AuthorDashboard.tsx:74 | levels 0 to 3 read their label; any other level reads "Novato" |
| Dashboard.SeeAllIffHidden | components/profile/AuthorDashboard.tsx:184 | the "see all" link appears iff some approved work is not in the top list |
| MyWorks.CountsOf | components/works/MyWorks.tsx:29-31 | the three counts never exceed the number of works |
| MyWorks.CountsCoverAll | components/works/MyWorks.tsx:29-31 | the counts add up to all works iff no work has another status |
| MyWorks.BadgeLabel | components/works/MyWorks.tsx:18-26 | each known status has its label; any other status reads "Borrador" |
| MyWorks.BadgeFallback | components/works/MyWorks.tsx:84 | the draft badge is shown exactly for a draft or an unknown status |
| MyWorks.CardLink | components/works/MyWorks.tsx:85-94 | a card links to its work page iff the work is approved |
| MyWorks.Engagement | components/works/MyWorks.tsx:146-155 | likes and comments show iff the card is a link, and they are the work's |
| MyWorks.TotalText | components/works/MyWorks.tsx:39 | the header starts with the count and " obra" |
| MyWorks.TotalTextSingular | components/works/MyWorks.tsx:39 | the singular form appears iff there is exactly one work |
| MyWorks.TotalTextPlural | components/works/MyWorks.tsx:39 | any count but one reads "N obras en total" |
| Register.DisplayName | components/auth/RegisterForm.tsx:30 | the trimmed name when not empty; otherwise a text without '@' |
| Register.DisplayNameFromEmail | components/auth/RegisterForm.tsx:30 | without a name, the display name is the part of the email before its first '@', or all of it |
| Register.RegisterForm.constructor | components/auth/RegisterForm.tsx:9-15 | empty fields, no error, not loading, no success |
| Register.RegisterForm.SetInviteCode | components/auth/RegisterForm.tsx:183 | the field stores the typed code upper-cased, so it holds no lower-case ASCII letter |
| Register.TypedCodeIsUpper | components/auth/RegisterForm.tsx:183 | a typed code, once upper-cased by the field and trimmed by the handlers, has no lower-case ASCII letter in any call or in local storage |
| Register.RegisterForm.HandleSubmit | components/auth/RegisterForm.tsx:18-87 | an empty code stops before any call. Otherwise validation comes first: a thrown or negative answer stops before the sign-up. The claim runs only with a new user id, and a refused claim reports a taken code. Success holds only when every step passed. Loading ends false |
| Register.RegisterForm.HandleGoogle | components/auth/RegisterForm.tsx:89-117 | an empty code sets its error and makes no call. An invalid code sets its error after the validation call; a thrown validation stops silently. A valid code is stored under "df_invite_code" before the OAuth redirect to the callback |
| Register.SubmitSucceedsIff | components/auth/RegisterForm.tsx:18-87 | a sign-up succeeds iff the code validates, the account is created, and the claim (when there is a user id) is granted |
| ResetPassword.Check | components/auth/ResetPasswordForm.tsx:20-27 | a mismatch is reported first, whatever the length (so a short password typed differently twice reads as a mismatch), then a length under eight UTF-16 code units; the check passes iff both agree and are long enough |
| ResetPassword.ResetForm.constructor | components/auth/ResetPasswordForm.tsx:9-12 | empty fields, no error, not loading |
| ResetPassword.ResetForm.HandleSubmit | components/auth/ResetPasswordForm.tsx:16-41 | a failed check sets its message with no call. Otherwise the update is called; success navigates to the dashboard, failure sets its message; loading ends false |
| Proxy.Decide | proxy.ts:36-52 | a signed-out visit under "/dashboard" goes to login; a signed-in visit to an auth page goes to the dashboard; anything else passes |
| Proxy.Guard | proxy.ts:55-57 | unmatched paths always pass; matched ones get the decision |
| Proxy.Matched | proxy.ts:55-57 | the matcher: the dashboard and the pages below it, login, register and forgot; characterised by MatchedDashboard, used by Guard |
| Proxy.RedirectsExclusive | proxy.ts:36-50 | no path is both under "/dashboard" and an auth page, so at most one redirect rule applies |
| Proxy.RedirectTargetPasses | proxy.ts:36-50 | every redirect lands on a page the same visitor is let through, so redirects never loop |
| Proxy.MatchedDashboard | proxy.ts:56 | among matched paths, starting with "/dashboard" means being the dashboard or a page below it |

## Left out

- Rendering: JSX, CSS classes, icons, image previews (`URL.createObjectURL`) and the clipboard.
- Timers (`setTimeout` for debounce, delayed redirects, feedback expiry) are explicit events such as `TimerFires`, `RedirectFires`, `SuccessExpires`, `FeedbackExpires` and `Bell.Fire`. The delays are not modelled. A redirect timer is a count of pending timers, since nothing cancels it.
- Wall-clock time enters as the age of a timestamp in milliseconds or as a supplied stamp. Date parsing and `toISOString` are not modelled.
- `getImageDimensions` reads the picture in the browser, so it is not modelled. Its outcome is supplied: dimensions or an unreadable image.
- `Promise.all` in `uploadWorkImages` is one result per file computed independently. Concurrency and completion order are not modelled, because only the sorted result is observable.
- Every backend call (Supabase auth, queries, RPCs, storage, OAuth) is an oracle parameter. The server-side ordering, limits (50 notifications, 20 history entries), row-level security and SQL functions are not modelled. The moderation queue's ordering is modelled by a stable sort on creation time, so rows created at the same instant keep their table order; the database gives no such promise for ties.
- `crypto.randomUUID` and `Math.random` are supplied values.
- `router.push`, `router.refresh`, `localStorage.setItem` and `alert` are recorded as outputs (a navigation target, a refresh flag, a call record, an alert text) and not executed. The navigations are ResetPassword.ResetForm.HandleSubmit's `navigate` and the `RedirectFires` events of CreateWork and OnboardingSave; the refreshes are those events and EditProfile.Editor.SuccessExpires.
- `toLowerCase` and `toUpperCase` are modelled for ASCII letters only, since the search, extension and invite-code rules are only stated for those.
- HTML constraint validation (`required`, `minLength`, `maxLength`, `type="email"`) is enforced by the browser and is not modelled. The handlers are modelled on whatever the fields hold, so they also cover inputs that a browser would refuse or cut short.
- Register.RegisterForm.HandleSubmit: the browser's `required` on the code, email and password and `minLength={8}` on the password (RegisterForm.tsx:181, 218, 236-237) are not modelled, so the model also sends sign-ups that a browser would block.
- Register.RegisterForm.SetInviteCode: the field's `maxLength={12}` (RegisterForm.tsx:186) is not modelled; the field holds the upper-cased text as typed.
- ResetPassword.ResetForm.HandleSubmit: the password's `required` and `minLength={8}` (ResetPasswordForm.tsx:64-65) are not modelled, so the handler's length check is modelled even though a browser never reaches it.
- Onboarding.Form.HandleUsernameChange: the username field's `maxLength={USERNAME_MAX}` (OnboardingForm.tsx:252) is not modelled, so a longer sanitised name can reach the availability check.
- Onboarding.Form.SetAbout: the bio field's `maxLength={BIO_MAX}` (OnboardingForm.tsx:347) is not modelled; CanStep3 still refuses a longer bio.
- EditProfile.Editor.HandleSave: the bio field's `maxLength={BIO_MAX}` (EditProfileForm.tsx:207) is not modelled; IsValid still refuses a longer bio.
- CreateWorkForm.Form.EditDetails: the title field's `maxLength={TITLE_MAX}` (CreateWorkForm.tsx:176) is not modelled; CanGoToPreview still refuses a longer trimmed title.
- Feed.Feed.FetchFeed: the fetch is one atomic step, so interleaving two in-flight page requests is not modelled.
- Notifications.Store.MarkAsRead: the RPC's error result is not inspected by the source, and only a thrown call is modelled as a failure. The stamp is assumed non-empty, as an ISO date string is.
- Notifications.Store.MarkAllRead: as for MarkAsRead.
- NotificationBell.Bell.Fire: requires a scheduled timer, since a timer that was never set cannot fire.
- ImageUploader.MoveFile: requires `from` to be a position of the list, since the buttons only pass rendered indices. JavaScript's `splice` behaviour for a negative or too-large `from` is not modelled.
- Like.LikeState.Start: the toggle is split at its `await` into `Start` and `Finish`, so a second click in between is modelled as ignored while loading.
- Register.SubmitSucceedsIff: requires `success` to be false beforehand, because the form never resets it.
- InviteCodes.Manager.HandleGenerate: the role selector and the quantity input are parameters.
- UsersManager.Manager.FetchUsers: the admin's work-count query is unfiltered, as in the source. A missing works result counts no works.
- The style classes of `STATUS_STYLES` in MyWorks are presentation and are not modelled; the labels are.
- Dashboard.LevelLabel: reputation levels are integers. A fractional level would also read "Novato" in JavaScript.
- Notifications.MarkReadUnread: requires a non-empty stamp, since an empty `read_at` is falsy and would leave the row unread. The same holds for Notifications.MarkAllClearsUnread, Notifications.MarkListedUnreadClears and NotificationBell.Bell.Fire.
- Storage.Results: requires one supplied timestamp, dimension and upload outcome per file. The same holds for Storage.UploadWorkImages and CreateWork.PublishState.Publish.
- OnboardingSave.CheckUsername: `maybeSingle` is read as "no row" when the query fails or finds several rows, so both cases report the name as available.
- Avatar.UploadAvatar: an upload error with an empty message is falsy for the callers, so they go on and save a null `avatar_url`. This is modelled as written.
- Onboarding.Form.HandleUsernameChange: the username input exists only on step 1, so on other steps the handler is modelled as doing nothing.
- The random avatar colour of the auth layout and the files that only provide React context are presentation or wiring, and are not part of this model.
- Files that only wire pages, layouts, marketing copy and the OAuth callback route are not part of this model.

## Findings

| source | as written | input that shows it | evidently intended | confidence | as-written member | corrected member |
|---|---|---|---|---|---|---|
| components/onboarding/OnboardingForm.tsx:70-73 | a debounced check's answer sets the status whatever name is in the field now; `clearTimeout` only cancels a check not yet sent | type "alice", let its check go out, then type "alicex"; the check for "alice" answers available while "alicex" is shown | the answer should apply only while its name is still in the field, so "available" is never shown for an unchecked name | not executed | Onboarding.StaleAnswerExample | Onboarding.Form.CheckResolvesCurrent |
| hooks/useFeed.ts:76-81 | `loadMore` advances `page` before the fetch, and a failed fetch does not undo it | a listing with full pages p+1 and p+2; one load-more fails, the next one succeeds | a retry should request page p+1 again, so the list stays the leading pages of the listing | not executed | Feed.FailedLoadMoreSkipsPage | Feed.Feed.LoadMoreCorrected |
