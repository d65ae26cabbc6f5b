# Client-side state of a social-network web client, in Dafny

This project models the client logic of a social-network front end that has a
precise meaning of its own:

- the **notification store**: the list of notifications in the feed, the
  unread-badge flag and the paging counters. It has eight actions. Adding and
  appending skip ids already listed. Removal is a filter by id. Two updates
  rewrite only the notifications with a given id;
- the **sign-up and login schemas**: length-bounded string fields checked in
  declaration order. Each check that fails records an ordered issue, and the
  form alerts the first one;
- the **sign-up form**: its email-verification flags (`emailCodeSent`,
  `emailVerified`, `emailCodeLoading`), the guards of its three handlers, its
  hand-written email pattern, and the rules that enable or show its controls;
- the **auth store**: a four-field identity record plus a hydration flag.

Everything is a pure function over immutable records: a store action or a form
handler maps one state to the next.

Modules, one per source unit:

| module | file | models |
|---|---|---|
| `Optional` | optional.dfy | nullable values (`null` / `undefined`) |
| `Messages` | messages.dfy | the alert texts, one constructor per literal |
| `FormSchema` | form_schema.dfy | the part of zod's `z.object` / `z.string` checking the schemas use |
| `JoinSchema` | join_schema.dfy | `app/join/validation/joinFormSchema.ts` |
| `LoginSchema` | login_schema.dfy | `app/login/validation/loginFormSchema.ts` |
| `EmailRegex` | email_regex.dfy | the pattern at `app/join/join-form.tsx:56` |
| `JoinForm` | join_form.dfy | `app/join/join-form.tsx` minus rendering and I/O |
| `NotificationStore` | notification_store.dfy | `app/store/useNotificationStore.ts` |
| `AuthStore` | auth_store.dfy | `app/store/useAuthStore.ts` |

Modelling choices:

- **zod.** `safeParse` visits the object's keys in shape order. For each string
  it runs every check and records one issue per failing check, in the order the
  checks are written. So the reported `issues[0]` is the first failing check of
  the first invalid field. A key missing from the input gives zod's "Required"
  issue. A successful parse returns exactly the shape's keys. `.email()` is
  zod's own pattern. It stays uninterpreted, passed in as a predicate `isEmail`.
- **Strings** are `seq<char>`, and a length is the number of characters.
- **Alerts** are constructors of `Messages.Message`. Each constructor stands
  for one literal. The send-code guard's two alerts have the same text as the
  schema's email messages, so they share those constructors.
- **Network calls** are split at the `await`. `BeginSendCode` and
  `BeginVerify` run the guards, return the request and raise the loading flag.
  `FinishSendCode` and `FinishVerify` take the response (`Ok`, `NotOk` or
  `NetworkError`) and lower the flag. `JoinForm.Session` pairs the form with
  the one code request awaiting a response. `JoinForm.Step` applies a UI event
  or a response. `JoinForm.Enabled` says which events the page allows, from
  its `disabled` attributes and the conditionally rendered code row.
- **Notification ids** are integers. Notifications carry their other fields
  (type, sub id, message, creation time, read flag, follow id and status), so
  "nothing else changes" is stated field by field.

One behaviour that the proofs make explicit: the email input stays editable
while a verification request is in flight, and the response handler does not
check which email the code was for. If the user edits the email and the old
request then succeeds, the new email is marked verified
(`JoinForm.VerifyResponseOutlivesEmailEdit`). The send-code request behaves the same way: a success that arrives after an email edit shows the code row for the new address, to which no code was sent (`JoinForm.SendResponseOutlivesEmailEdit`). The model keeps both as written.

## Model

| member | source | states |
|---|---|---|
| `NotificationStore.InitialStoreState` | app/store/useNotificationStore.ts:26-30 | the store opens empty, with no unread badge, on page 0, with pages of 10 and more to load; its (empty) id list is trivially distinct |
| `NotificationStore.AddNotification` | app/store/useNotificationStore.ts:31-41 | an id already listed leaves the whole store unchanged, unread flag included; a new id goes to index 0 with the old list as the tail, the unread flag is raised, page, size and hasMore are kept; afterwards the id is listed |
| `NotificationStore.AppendNotifications` | app/store/useNotificationStore.ts:42-52 | the old list is an exact prefix; every appended element has an id not in the old list; the appended part holds each batch element with a new id exactly as often as the batch does, and nothing else; hasMore becomes the argument; the other fields are kept |
| `NotificationStore.ResetNotifications` | app/store/useNotificationStore.ts:53-58 | the list is empty, page is 0, hasMore is true; the unread flag and the size are kept |
| `NotificationStore.MarkNotificationsAsRead` | app/store/useNotificationStore.ts:59 | only the unread flag changes, to false |
| `NotificationStore.IncrementPage` | app/store/useNotificationStore.ts:60 | only the page changes, to page + 1 |
| `NotificationStore.RemoveNotification` | app/store/useNotificationStore.ts:61-66 | no element with the id remains; every other element keeps its multiplicity; the other store fields are kept |
| `NotificationStore.MarkSingleNotificationAsRead` | app/store/useNotificationStore.ts:67-74 | length and positions are kept; each element differs from the old one at most in is_read; is_read becomes old is_read or id match; the other store fields are kept |
| `NotificationStore.UpdateNotificationFollowStatus` | app/store/useNotificationStore.ts:75-82 | length and positions are kept; each element differs at most in follow id and status; matching elements get the given pair; the others are unchanged |
| `NotificationStore.MapMatching` | app/store/useNotificationStore.ts:69-73 | map-by-id keeps the length; position k holds the update of the old element if its id matches, else the old element |
| `NotificationStore.FilterKept` | app/store/useNotificationStore.ts:63-65 | a filter is never longer than its input, and every element it returns is accepted and comes from the input |
| `NotificationStore.FilterCount` | app/store/useNotificationStore.ts:63-65 | a filter keeps exactly the accepted elements, each with its original multiplicity |
| `NotificationStore.FilterConcat` | app/store/useNotificationStore.ts:63-65 | filtering a concatenation filters each part, so kept elements keep their relative order |
| `NotificationStore.FilterKeepsAll` | app/store/useNotificationStore.ts:63-65 | filtering with a predicate every element meets returns the list unchanged |
| `NotificationStore.AddIdempotent` | app/store/useNotificationStore.ts:31-41 | adding the same notification twice equals adding it once |
| `NotificationStore.AddThenRemove` | app/store/useNotificationStore.ts:31-66 | adding a notification with a new id and then removing that id restores the list |
| `NotificationStore.RemoveAbsentIsIdentity` | app/store/useNotificationStore.ts:61-66 | removing an id that is not listed leaves the store unchanged |
| `NotificationStore.RemoveKeepsOrder` | app/store/useNotificationStore.ts:61-66 | removing from a concatenated list removes from each part, so the survivors keep their relative order |
| `NotificationStore.AppendKeepsBatchOrder` | app/store/useNotificationStore.ts:42-52 | appending a concatenated batch appends the first part's new elements and then the second's, in batch order |
| `NotificationStore.MarkSingleReadIdempotent` | app/store/useNotificationStore.ts:67-74 | marking one id read twice equals marking it once |
| `NotificationStore.AddPreservesUniqueIds` | app/store/useNotificationStore.ts:33-40 | adding always keeps the ids distinct |
| `NotificationStore.FilterPreservesUniqueIds` | app/store/useNotificationStore.ts:45-47 | a filtered list of distinct ids has distinct ids |
| `NotificationStore.AppendPreservesUniqueIds` | app/store/useNotificationStore.ts:42-52 | appending keeps the ids distinct when the batch's own ids are distinct |
| `NotificationStore.AppendDuplicateBatchBreaksUniqueIds` | app/store/useNotificationStore.ts:44-47 | two batch elements sharing a new id are both appended: the batch is not deduplicated against itself |
| `NotificationStore.ApplyPreservesUniqueIds` | app/store/useNotificationStore.ts:31-82 | every action except an append of a batch with a repeated id keeps the ids distinct |
| `NotificationStore.ApplyAllPreservesUniqueIds` | app/store/useNotificationStore.ts:25-82 | any run of such actions from a store with distinct ids keeps them distinct |
| `NotificationStore.InitialRunKeepsUniqueIds` | app/store/useNotificationStore.ts:26-82 | from the initial store, any run of actions whose appended batches have distinct ids leaves the ids distinct |
| `AuthStore.SetAuth` | app/store/useAuthStore.ts:23 | each of the four identity fields takes the argument's value, null or undefined included; the hydration flag is kept |
| `AuthStore.ResetAuth` | app/store/useAuthStore.ts:24 | the four identity fields become null, equal to the initial ones; the hydration flag is kept |
| `AuthStore.SetHasHydrated` | app/store/useAuthStore.ts:25 | the hydration flag becomes the argument and the identity fields are unchanged |
| `AuthStore.InitialState` | app/store/useAuthStore.ts:18-22 | initially all four identity fields are null and the store is not hydrated |
| `AuthStore.SetThenResetRestoresInitialIdentity` | app/store/useAuthStore.ts:23-24 | setAuth then resetAuth restores the initial identity fields and equals resetAuth alone |
| `AuthStore.SetAuthOverwrites` | app/store/useAuthStore.ts:23 | a second setAuth erases every trace of the first |
| `AuthStore.HydrationCommutes` | app/store/useAuthStore.ts:23-25 | setting the hydration flag commutes with setAuth and with resetAuth |
| `FormSchema.CheckIssuesEmptyIff` | app/join/validation/joinFormSchema.ts:7-10 | a string has no issue iff it passes every check of its field |
| `FormSchema.CheckIssuesFirst` | app/join/validation/joinFormSchema.ts:7-10 | the first issue of a field is the message of its first failing check, in written order |
| `FormSchema.CheckIssuesSound` | app/join/validation/joinFormSchema.ts:7-10 | every recorded issue is the message of a check that fails |
| `FormSchema.ShapeIssuesEmptyIff` | app/join/validation/joinFormSchema.ts:6-22 | an object has no issue iff every field of the shape is valid |
| `FormSchema.ShapeIssuesFirst` | app/join/validation/joinFormSchema.ts:6-22 | the object's first issue is the first issue of the first invalid field in declaration order |
| `FormSchema.SafeParse` | app/join/validation/joinFormSchema.ts:6-22 | success iff every field is valid, and then the data holds exactly the shape's keys with the input's values; a failure has an issue, led by the first invalid field's first issue |
| `FormSchema.ShapeIssuesReadOnlyShapeKeys` | app/login/validation/loginFormSchema.ts:6-15 | the issues depend only on the presence and values of the shape's keys |
| `FormSchema.SafeParseReadsOnlyShapeKeys` | app/login/validation/loginFormSchema.ts:6-15 | inputs that agree on the shape's keys get the same verdict and parsed data; other keys are ignored and stripped |
| `JoinSchema.JoinIssues` | app/join/validation/joinFormSchema.ts:6-22 | the join object's issues are the username's, password's, real name's and email's issues, in that order |
| `JoinSchema.RequestFields` | app/join/join-form.tsx:22 | each schema field reads the value the form passed under its key |
| `JoinSchema.FieldBounds` | app/join/validation/joinFormSchema.ts:6-22 | each field has no issue iff its bounds hold: username length in [3,50], password in [8,30], real name in [1,50], email in [1,100] and the email predicate |
| `JoinSchema.SuccessDataIsRequest` | app/join/validation/joinFormSchema.ts:6-22 | a successful parse of the form's request object returns that object unchanged |
| `JoinSchema.Validate` | app/join/validation/joinFormSchema.ts:6-22 | accepted iff username length is in [3,50], password in [8,30], real name in [1,50], email in [1,100] and the email predicate holds; then the data is the request object |
| `JoinSchema.FirstIssueFollowsFieldOrder` | app/join/validation/joinFormSchema.ts:6-22 | the reported message is the first issue of the first invalid field among username, password, real name, email |
| `JoinSchema.NonEmptyAfterMinRedundant` | app/join/validation/joinFormSchema.ts:7-14 | for a field whose checks are a minimum length of at least 1, a second check, then nonempty, dropping the nonempty check never changes acceptance, and when it fails the minimum-length message comes first |
| `JoinSchema.NonEmptyChecksRedundant` | app/join/validation/joinFormSchema.ts:7-14 | on username and password the nonempty check never changes acceptance, and its issue never comes first |
| `JoinSchema.EmptyUsernameReportsMinLength` | app/join/validation/joinFormSchema.ts:7-10 | an empty username is reported with the minimum-length message first and "enter a username" second |
| `JoinSchema.EmptyRealNameReportsRequired` | app/join/validation/joinFormSchema.ts:15-17 | with a valid username and password, an empty real name is reported with "enter a name" |
| `JoinSchema.EmptyEmailReportsRequiredBeforeFormat` | app/join/validation/joinFormSchema.ts:18-22 | with the other fields valid, an empty email is reported with "enter an email", ahead of any format issue |
| `LoginSchema.Validate` | app/login/validation/loginFormSchema.ts:6-15 | accepted iff username length is in [3,50] and password length in [8,30]; on success the data is the request object; a failure reports the first broken bound in the order username too short, username too long, password too short, password too long |
| `LoginSchema.LoginIssues` | app/login/validation/loginFormSchema.ts:6-15 | the object's issues are the username's issues followed by the password's |
| `LoginSchema.FirstIssueOfBoundedField` | app/login/validation/loginFormSchema.ts:7-14 | a field checked by a minimum length, a maximum length and nonempty reports first the minimum's message if the value is too short, else the maximum's if too long |
| `LoginSchema.LoginShapeIsJoinPrefix` | app/login/validation/loginFormSchema.ts:7-14 | the login fields equal the join schema's first two fields: keys, checks, order and messages |
| `LoginSchema.JoinAcceptedImpliesLoginAccepted` | app/login/validation/loginFormSchema.ts:6-15 | a username/password pair that the join schema accepts is accepted by the login schema |
| `LoginSchema.EmptyUsernameRejected` | app/login/validation/loginFormSchema.ts:7-10 | an empty username is rejected with the minimum-length message first |
| `LoginSchema.EmptyPasswordRejected` | app/login/validation/loginFormSchema.ts:11-14 | an empty password is rejected; after a valid username its message is the minimum-length one |
| `LoginSchema.VerdictIgnoresOtherKeys` | app/login/validation/loginFormSchema.ts:6-15 | two inputs with the same username and password entries get the same result |
| `EmailRegex.MatchesIffAccepts` | app/join/join-form.tsx:56 | the pattern matches iff the string has no whitespace, an '@' at some i > 0 and a '.' at some j with i+1 < j < len-1 |
| `EmailRegex.Test` | app/join/join-form.tsx:56-57 | the scan returns true iff the pattern's language contains the string, equivalently iff the position characterization holds |
| `JoinForm.StartState` | app/join/join-form.tsx:6-14 | the page opens with every text field empty, every flag down and nothing pending, so submit and send-code are disabled and the code row is hidden |
| `JoinForm.ApplyEdit` | app/join/join-form.tsx:122-188 | each text input's handler writes the typed value into its own field and changes nothing else; editing the email also clears the verified and sent flags; no edit touches the loading flag |
| `JoinForm.VerifiedEmailLocksControls` | app/join/join-form.tsx:162-226 | a verified email disables the email input and the send-code button and hides the code row; submit needs a verified email and all five text fields non-empty; the code row is shown only after a code was sent |
| `JoinForm.BeginSendCode` | app/join/join-form.tsx:50-61 | an empty email is rejected with "enter an email"; a non-empty email failing the pattern is rejected with the format message; otherwise exactly the send-code request for that email is issued with the loading flag raised |
| `JoinForm.FinishSendCode` | app/join/join-form.tsx:69-82 | the code is marked sent iff it already was or the response succeeded; loading drops; nothing else changes |
| `JoinForm.BeginVerify` | app/join/join-form.tsx:85-96 | rejected with "enter the code" iff the code is empty; otherwise the request carries the current email and code, with loading raised |
| `JoinForm.FinishVerify` | app/join/join-form.tsx:98-113 | the email is marked verified iff it already was or the response succeeded; loading drops; nothing else changes |
| `JoinForm.HandleJoin` | app/join/join-form.tsx:16-32 | a password mismatch is rejected with its message before the schema runs; a schema failure is rejected with the schema's first issue; a request is issued iff the passwords match and all field bounds and the email predicate hold, with the four fields as body |
| `JoinForm.HandleJoinIgnoresVerification` | app/join/join-form.tsx:16-26 | the join handler's verdict and request do not depend on the verified or sent flags |
| `JoinForm.EditEmailDisablesSubmit` | app/join/join-form.tsx:155-159 | right after an email edit, submit is disabled and the code row is hidden |
| `JoinForm.SubmitEnabledIff` | app/join/join-form.tsx:226 | the submit button is usable iff username, password, confirmation, real name and email are all non-empty and the email is verified |
| `JoinForm.SendCodeEnabledIff` | app/join/join-form.tsx:178 | the send-code button is usable iff the email is non-empty, unverified, and no code request is loading |
| `JoinForm.CodeRowShownIff` | app/join/join-form.tsx:182-188 | the code row is shown iff a code was sent and the email is unverified, and only then can the code be typed |
| `JoinForm.VerifyEnabledIff` | app/join/join-form.tsx:182-207 | the verify button is usable iff the code row is shown, a code is typed and no code request is loading |
| `JoinForm.EmailEditableIff` | app/join/join-form.tsx:162 | the email input is editable iff the email is unverified; the other text inputs are always editable |
| `JoinForm.Step` | app/join/join-form.tsx:50-113 | an edit keeps the pending request; a rejected click changes nothing; an accepted send-code click pends `SendCode(email)` and a verify click `VerifyCode(email, code)`, raising loading; a response goes to the finishing handler of the pending request, ends it and lowers loading; submit changes nothing |
| `JoinForm.StepKeepsConsistent` | app/join/join-form.tsx:61-113 | every allowed event keeps "loading flag up iff a code request awaits its response" |
| `JoinForm.RunKeepsConsistent` | app/join/join-form.tsx:61-113 | any run of allowed events keeps that agreement |
| `JoinForm.AtMostOneCodeRequest` | app/join/join-form.tsx:178-207 | from the initial page, a send-code or verify click is possible only when no code request is pending |
| `JoinForm.VerifiedOnlyBySuccessfulVerify` | app/join/join-form.tsx:98-99 | the verified flag is raised only by a successful response to a pending verify request |
| `JoinForm.CodeSentOnlyBySuccessfulSend` | app/join/join-form.tsx:69-70 | the sent flag is raised only by a successful response to a pending send-code request |
| `JoinForm.VerifiedNeedsVerifyResponse` | app/join/join-form.tsx:98-99 | a run that ends with a verified email, from an unverified one, contains a successful response that arrived while a verify request was pending |
| `JoinForm.SubmitNeedsSuccessfulVerify` | app/join/join-form.tsx:98-226 | from the opening page, the submit button becomes usable only after a verify request got a successful response |
| `JoinForm.VerifyResponseOutlivesEmailEdit` | app/join/join-form.tsx:155-162 | while a verify request is pending the email can be edited; a later success then marks the edited, unverified address as verified |
| `JoinForm.SendResponseOutlivesEmailEdit` | app/join/join-form.tsx:69-182 | while a send-code request is pending the email can be edited; a later success then shows the code row for the edited address, to which no code was sent |

## Left out

- All `fetch` calls, response bodies, `alert`, the redirect after a successful join, and `process.env` are left out. A response is only `Ok`, `NotOk` or `NetworkError`, and an alert is the `Message` it would show.
- The join request's response is left out. It only alerts or redirects, so it does not change the form.
- Rendering, styles, HTML `minLength`/`maxLength` attributes and React `useState`/`useEffect` plumbing are left out. The `disabled` attributes and the conditional code row are kept, as `JoinForm.Enabled`.
- zod's `.email()` pattern is left uninterpreted, as the parameter `isEmail`. zod's other issue kinds are left out too. The form always passes strings, so only "Required" for a missing key is modelled.
- String lengths count characters. JavaScript's `.length` counts UTF-16 code units, so a string with characters outside the Basic Multilingual Plane has a larger JavaScript length than modelled. The email pattern has no `u` flag, so it also works on code units. Its whitespace class contains only Basic Multilingual Plane characters, so its verdict is unaffected.
- NotificationStore.Notification: `notification_id` is a plain integer. The generated response type marks it optional. With two id-less notifications, JavaScript's `undefined === undefined` would treat them as duplicates, and the model does not cover that case. `NaN` ids are not modelled either.
- NotificationStore.IncrementPage: `page` is an unbounded natural. JavaScript numbers lose precision above 2^53.
- The zustand `persist` middleware, localStorage, and the rehydration callback that calls `setHasHydrated(true)` are left out. They are library and storage I/O, and the callback is modelled only as the `SetHasHydrated` action.
- `app/login/login-form.tsx` is not part of this model. Its login schema is modelled in `LoginSchema`; the form's own button enabling, request and redirect are outside this model's scope.
- The chat room page and the other pages under `app/(authenticated)` are not part of this model. They are outside its scope, which is the two stores and the sign-up and login validation.
- `app/page.tsx`, `app/join/page.tsx` and `next.config.ts` are left out. They are routing, layout and configuration.
