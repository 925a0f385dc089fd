# HATie mobile client — verified model of its screen logic

HATie-MBL is the React Native client of a clinical audio-summarisation
service. Users own or join institutions, institutions hold groups of
patients, members get a per-group access level, and recordings of
consultations become summarizations with extracted insights. This project
models the sequential logic of the client in Dafny:

- the two Redux slices: the session (`authenticate`, `unauthenticate`,
  `setToken`, `setUser`) and the permissions (`setInstitutionPermissions`,
  `setGroupPermissions`);
- the permission rules: the capability thresholds 1/11/111, the moderator
  test, and the owner/moderator/capability gating of every screen's actions;
- the access-level ladder and the member's per-group access table, updated
  entry by entry (`EditMember`);
- the birthdate text handling (`toBrazilianFormat`, `toISOFormat`, the input
  normaliser, the date regex) and the checks that run before a patient is
  created or updated;
- the validation chains and message priorities of sign-up and password reset,
  and the three-phase reset flow;
- the list derivations: the home institution list and its tabs, group
  visibility, summary ordering and numbering, invitation answers, and the
  sorted, searchable lists of members, patients and group members.

Each screen is a module. Its React state becomes the fields of a class, and
each handler becomes a method. Every network call is an input to the method:
a `Response<T>` that is either `Ok(payload)` or `Failed(message)`. The value
the handler would send becomes the method's result. Pure helpers are Dafny
functions, and the properties that relate several calls are lemmas. Arrays
the source sorts or overwrites in place stay `array`s: the fetched member,
patient and summarization lists and the access table.

Shared pieces:
- `Wrappers` holds `Option`, `Response` and JavaScript truthiness of an optional string.
- `Text` covers digits, decimal rendering and parsing, `includes`, clamped `slice`, and the name order.
- `Lists` holds `filter` and the search box filter.
- `Sorting` holds the in-place comparator sort.
- `Records` holds the backend records.

Two behaviours of the code are modelled as written:
- A session is not always authenticated exactly when it holds a non-empty
  token and a user. The reducers let both combinations be broken
  (`Session.TokenInvariantNotKept`).
- The moderator level written by `EditMember` (111) differs from the one
  `InstitutionDetails` tests (222)
  (`InstitutionDetails.PromotedMemberIsNotModerator`).

## Model

| member | source | states |
|---|---|---|
| Session.Authenticate | src/store/reducers/authenticationReducer.ts:18-20 | whatever the prior state, the result is authenticated with exactly the given token and user |
| Session.Unauthenticate | src/store/reducers/authenticationReducer.ts:21-23 | the result is the initial state (not authenticated, empty token, no user) from any state |
| Session.SetToken | src/store/reducers/authenticationReducer.ts:24-26 | only the token changes; `authenticated` and the user are kept |
| Session.SetUser | src/store/reducers/authenticationReducer.ts:27-29 | only the user changes; `authenticated` and the token are kept |
| Session.AuthenticatedFollowsLastSignIn | src/store/reducers/authenticationReducer.ts:18-29 | after any action sequence, `authenticated` is the value set by the latest authenticate/unauthenticate, or the starting value if there was none |
| Session.AuthenticatedIffLastWasSignIn | src/store/reducers/authenticationReducer.ts:12-29 | from the initial state, `authenticated` holds iff the latest authenticate/unauthenticate action was `authenticate` |
| Session.RouterFollowsLastUserChange | src/routes/index.tsx:30 | from the initial state, the app routes are shown iff the latest action touching the user set one |
| Session.SignOutShowsSignIn | src/routes/index.tsx:30 | after `unauthenticate` the sign-in screen is shown, and `unauthenticate` is idempotent |
| Session.TokenInvariantNotKept | src/store/reducers/authenticationReducer.ts:18-26 | an authenticated session with an empty token, and an unauthenticated one with a token, are both reachable |
| Authorization.SetInstitutionPermissions | src/store/reducers/authorizationReducer.ts:25-27 | owner and moderator flags become the payload; group permissions are unchanged |
| Authorization.SetGroupPermissions | src/store/reducers/authorizationReducer.ts:28-30 | group permissions are replaced wholesale; owner and moderator flags are unchanged |
| Authorization.SettersCommute | src/store/reducers/authorizationReducer.ts:25-30 | applying the institution setter then the group setter equals the reverse order |
| Authorization.SettersIdempotent | src/store/reducers/authorizationReducer.ts:25-30 | applying either setter twice with the same payload equals applying it once |
| Authorization.SlicesFollowTheirOwnActions | src/store/reducers/authorizationReducer.ts:15-30 | from the all-false initial state, each slice holds the payload of its own latest action, or its initial value |
| NewPatient.RemoveSlashes | src/screens/NewPatient.tsx:114 | the result has no '/' and is no longer than the input |
| NewPatient.NormaliseBirthdateInput | src/screens/NewPatient.tsx:114 | the stored birthdate never exceeds 8 characters and never contains '/' |
| NewPatient.RemoveSlashesAppend | src/screens/NewPatient.tsx:114 | removing slashes distributes over concatenation |
| NewPatient.RemoveSlashesNone | src/screens/NewPatient.tsx:114 | a text without '/' is left as it is |
| NewPatient.DropSeparator | src/screens/NewPatient.tsx:114 | removing slashes from a separator followed by slash-free text gives that text |
| NewPatient.BrazilianRoundTrip | src/screens/NewPatient.tsx:20-32 | for a text without '/', removing every '/' from its Brazilian display gives it back |
| NewPatient.DisplayIsStable | src/screens/NewPatient.tsx:20-32 | re-entering the displayed date unchanged stores the same birthdate |
| NewPatient.TypingAppends | src/screens/NewPatient.tsx:114 | typing a character at the end of the display appends it to the stored digits, up to 8 |
| NewPatient.DeletingRemovesLast | src/screens/NewPatient.tsx:114 | deleting the last displayed character deletes the last stored one |
| NewPatient.TwoDigitTokens | src/screens/NewPatient.tsx:69 | the regex day token of two characters accepts exactly 01-31, and the month token exactly 01-12 |
| NewPatient.LongDisplay | src/screens/NewPatient.tsx:20-32 | from 5 stored characters on, the display is day + "/" + month + "/" + year |
| NewPatient.ShortDisplay | src/screens/NewPatient.tsx:20-32 | fewer than 5 stored characters display as fewer than 8 characters |
| NewPatient.OnlyFullSplit | src/screens/NewPatient.tsx:69 | on a display with slashes at positions 2 and 5, the regex matches iff the two-digit split matches |
| NewPatient.DisplaySplit | src/screens/NewPatient.tsx:20-32 | on the display of 8 stored characters, the regex matches iff the first two are a day token, the next two a month token and the rest digits (also line 69) |
| NewPatient.StoredSplit | src/screens/NewPatient.tsx:69 | 8 stored characters form a valid date iff they split into a day token, a month token and digits |
| NewPatient.EightCharacterGate | src/screens/NewPatient.tsx:20-32 | for 8 stored characters, the regex accepts the display iff the stored text is a valid date (also line 69) |
| NewPatient.DateGate | src/screens/NewPatient.tsx:69-72 | the regex accepts the display of a stored birthdate iff it is 8 digits with day 01-31 and month 01-12 |
| NewPatient.ISOFormatOfValidDate | src/screens/NewPatient.tsx:34-42 | a valid stored date is sent as yyyy + "-" + mm + "-" + dd |
| NewPatient.CheckPatientForm | src/screens/NewPatient.tsx:62-72 | an empty name or birthdate is reported first; only then an invalid date; otherwise accepted (each case as an iff) |
| NewPatient.NewPatientForm.constructor | src/screens/NewPatient.tsx:45-53 | the form starts empty with every flag cleared |
| NewPatient.NewPatientForm.ChangeBirthdate | src/screens/NewPatient.tsx:114 | the stored birthdate is the normalised input |
| NewPatient.NewPatientForm.AddPatient | src/screens/NewPatient.tsx:61-90 | a create request is made iff both checks pass; a missing field sets `isRequired` only, a bad date `invalidDate` only; the request carries the ISO date |
| EditPatient.Pad2 | src/screens/EditPatient.tsx:26-29 | a one-character text gets a leading character; anything else is unchanged |
| EditPatient.PaddedValue | src/screens/EditPatient.tsx:26-29 | a day or month 1-99 is rendered as exactly two digits with its value |
| EditPatient.LoadedDateRoundTrip | src/screens/EditPatient.tsx:23-31 | for a real day, month and 4-digit year, the result is a valid 8-digit stored date whose fields decode back to the day, month and year |
| EditPatient.LoadedPatientPassesCheck | src/screens/EditPatient.tsx:59-63 | a loaded patient with a name and a 4-digit birth year passes the save-time check unchanged |
| EditPatient.EarlyYearIsRefused | src/screens/EditPatient.tsx:23-31 | a birth year below 1000 loads as a date the save-time check refuses |
| EditPatient.TextOrEmpty | src/screens/EditPatient.tsx:61-62 | a missing height or weight is pre-filled as "" |
| EditPatient.EditPatientForm.constructor | src/screens/EditPatient.tsx:34-46 | the form starts loading, empty, with every flag cleared |
| EditPatient.EditPatientForm.OnPatientLoaded | src/screens/EditPatient.tsx:54-70 | on success the fields are the patient's, with the birthdate from `leaveNumbersOnly`; on failure the error is set; loading ends |
| EditPatient.EditPatientForm.ChangeBirthdate | src/screens/EditPatient.tsx:140 | the stored birthdate is the normalised input |
| EditPatient.EditPatientForm.UpdatePatient | src/screens/EditPatient.tsx:72-101 | an update is requested iff both checks pass; `isUpdating` is set only then; the request carries the ISO date and no group or institution |
| EditPatient.EditPatientForm.RequestDelete | src/screens/EditPatient.tsx:171 | the delete intention is set |
| EditPatient.EditPatientForm.CancelDelete | src/screens/EditPatient.tsx:199 | the delete intention is cleared |
| EditPatient.EditPatientForm.DeletePatient | src/screens/EditPatient.tsx:103-114 | the intention is cleared; success confirms the delete; failure resets `isDeleting` and sets the error |
| Passwords.CheckPasswords | src/screens/SignUp.tsx:47-66 | blank fields are reported first, then an invalid format, then a mismatch; the attempt passes iff all three checks pass |
| Passwords.InvalidMessage | src/screens/SignUp.tsx:35-43 | the message priority is format > blank > different > already registered > "" (each as an iff) |
| SignUp.SignUpForm.constructor | src/screens/SignUp.tsx:23-33 | the form starts empty, with every flag cleared and an empty message |
| SignUp.SignUpForm.RunChecks | src/screens/SignUp.tsx:47-67 | the blank, format and match checks run in that order and stop at the first failure, which sets its own flag; each passed check clears its flag |
| SignUp.SignUpForm.HandleSignUp | src/screens/SignUp.tsx:45-76 | "already registered" is cleared first; a create call is made iff every check passes; each failing check sets its flag and stops; each passed check clears its flag; the request always has `isAdmin` true and the default preferences; a failed call sets "already registered" and ends loading |
| ResetPassword.DigitPrefix | src/screens/ResetPassword.tsx:97 | the leading digits of a text: all digits, a prefix, followed by a non-digit or the end |
| ResetPassword.ParseInt | src/screens/ResetPassword.tsx:97 | `parseInt` fails iff the text does not start with a digit, and gives the decimal value of an all-digit text |
| ResetPassword.ParseIntRoundTrip | src/screens/ResetPassword.tsx:97 | parsing the decimal rendering of n gives n |
| ResetPassword.ExpectedCodeParses | src/screens/ResetPassword.tsx:66 | the only code that reaches the reset phase parses to 123 (also line 97) |
| ResetPassword.ResetPasswordScreen.constructor | src/screens/ResetPassword.tsx:22-38 | the flow starts in the email phase, with every flag cleared |
| ResetPassword.ResetPasswordScreen.SetCode | src/screens/ResetPassword.tsx:152 | typing in the code field stores the code and keeps exactly one phase |
| ResetPassword.ResetPasswordScreen.CheckUser | src/screens/ResetPassword.tsx:48-63 | success moves from the email phase to the code phase and clears "user does not exist"; on failure the phase is kept, and a message containing "404" sets "user does not exist" while any other goes to the error |
| ResetPassword.ResetPasswordScreen.CheckCode | src/screens/ResetPassword.tsx:65-72 | the reset phase is reached iff the code is "123"; otherwise `invalidCode` is set and the phase is kept |
| ResetPassword.ResetPasswordScreen.RunChecks | src/screens/ResetPassword.tsx:75-94 | the blank, format and match checks run in that order and stop at the first failure, which sets its own flag; each passed check clears its flag |
| ResetPassword.ResetPasswordScreen.SubmitReset | src/screens/ResetPassword.tsx:96-104 | the reset call carries the user id, the new password and the code 123; success confirms the change, failure stores the message; the spinner stops either way |
| ResetPassword.ResetPasswordScreen.HandleChangePassword | src/screens/ResetPassword.tsx:74-105 | blank, format and match are checked in that order, stopping at the first failure; the reset call is made iff all pass and sends `parseInt("123")` |
| EditMember.LadderIsClosed | src/screens/EditMember.tsx:113-114 | on 1/11/111, upgrade stops exactly at 111, downgrade exactly at 1, and both stay on the ladder |
| EditMember.LadderRoundTrips | src/screens/EditMember.tsx:113-114 | down(up(x)) = x for x in {1, 11} and up(down(x)) = x for x in {11, 111} |
| EditMember.OffLadderJumps | src/screens/EditMember.tsx:113-114 | an absent or off-ladder level upgrades to 111 and downgrades to 1 |
| EditMember.WithGrant | src/screens/EditMember.tsx:81-89 | merging a grant into a table entry keeps the name and takes the grant's group, id and level |
| EditMember.BuildAccessTable | src/screens/EditMember.tsx:76-93 | one entry per institution group in order, with its name and id, merged with the member's first grant on that group if there is one |
| EditMember.Replace | src/screens/EditMember.tsx:120-121 | only the entry at the index changes; the length and every other entry are kept |
| EditMember.GroupIds | src/screens/EditMember.tsx:76-93 | the table's group ids, in order |
| EditMember.GrantKeepsGroups | src/screens/EditMember.tsx:99-104 | writing a grant into the table never changes which groups it lists |
| EditMember.PostedGrantIsShown | src/screens/EditMember.tsx:99-104 | after a grant is posted for a listed group, that group's entry shows the grant's id and level |
| EditMember.ModeratorTarget | src/screens/EditMember.tsx:182-202 | the button sends 1 (depromote) iff the level is 111, and 111 (promote) otherwise (also lines 234-238) |
| EditMember.ModeratorToggleReturns | src/screens/EditMember.tsx:182-202 | pressing the button twice returns to the original level exactly when that level is 1 or 111 |
| EditMember.EditMemberScreen.constructor | src/screens/EditMember.tsx:35-45 | the screen starts loading with an empty table |
| EditMember.EditMemberScreen.Load | src/screens/EditMember.tsx:53-93 | on success the table is built from the institution's groups and the member's grants; failures set the error and a failed member fetch keeps the stored level; loading ends |
| EditMember.EditMemberScreen.AddMembership | src/screens/EditMember.tsx:95-110 | the grant is posted at level 1; on success the matching entry of the same array is overwritten in place and nothing else changes |
| EditMember.EditMemberScreen.WriteCopy | src/screens/EditMember.tsx:118-124 | a fresh copy of the table with only the matching entry replaced |
| EditMember.EditMemberScreen.UpgradeMembership | src/screens/EditMember.tsx:112-130 | 111 makes no call; 1 sends 11; anything else 111; on success only the entry with that id is replaced, in a fresh copy, and `reload` flips; a failure sets the error and keeps `reload` |
| EditMember.EditMemberScreen.DowngradeMembership | src/screens/EditMember.tsx:132-150 | 1 makes no call; 111 sends 11; anything else 1; on success only the entry with that id is replaced, in a fresh copy, and `reload` flips; a failure sets the error and keeps `reload` |
| EditMember.EditMemberScreen.RemoveMembership | src/screens/EditMember.tsx:152-167 | on success only the matching entry loses its id (name and group kept), in place |
| EditMember.EditMemberScreen.ToggleModerator | src/screens/EditMember.tsx:182-202 | sends 1 iff the member is at 111, else 111; success stores the new level |
| EditMember.EditMemberScreen.RemoveMember | src/screens/EditMember.tsx:169-180 | the intention is cleared; success confirms; failure resets `isRemoving` and sets the error |
| GroupDetails.AccessLevelThresholds | src/screens/GroupDetails.tsx:25-29 | an absent or zero level grants nothing; read iff >= 1, write iff >= 11, delete iff >= 111; delete implies write implies read |
| GroupDetails.LadderCapabilities | src/screens/GroupDetails.tsx:27 | levels 1, 11 and 111 give {R}, {R,W} and {R,W,D} |
| GroupDetails.LadderMovesOneCapability | src/screens/GroupDetails.tsx:25-29 | on the ladder, an upgrade adds exactly one capability and a downgrade removes one |
| GroupDetails.PatientItems | src/screens/GroupDetails.tsx:70-83 | one item per patient in order; item k is named "Paciente #0" + (k+1) |
| GroupDetails.Actions | src/screens/GroupDetails.tsx:153 | manage iff owner or moderator; add-patient iff owner, moderator or level >= 11 (also line 179) |
| GroupDetails.GroupDetailsScreen.constructor | src/screens/GroupDetails.tsx:34-37 | the screen starts loading with no data |
| GroupDetails.GroupDetailsScreen.Load | src/screens/GroupDetails.tsx:48-89 | owners never fetch a grant; permissions are dispatched iff the grant was fetched, from its level; the list is the group's numbered patients |
| InstitutionDetails.IsModerator | src/screens/InstitutionDetails.tsx:42 | holds iff the member level is present and equals 222 |
| InstitutionDetails.PromotedMemberIsNotModerator | src/screens/InstitutionDetails.tsx:42 | no level written by the promote/depromote button passes the moderator test |
| InstitutionDetails.Items | src/screens/InstitutionDetails.tsx:76-97 | one optional item per institution group |
| InstitutionDetails.Present | src/screens/InstitutionDetails.tsx:98 | dropping the absent items never lengthens the list |
| InstitutionDetails.VisibleSource | src/screens/InstitutionDetails.tsx:98 | the visible groups are a subsequence of the institution's groups |
| InstitutionDetails.VisibleGroupsFollowSource | src/screens/InstitutionDetails.tsx:76-98 | each visible item copies its group; an owner's carries no grant id, a member's the id of its first grant on that group |
| InstitutionDetails.VisibleStep | src/screens/InstitutionDetails.tsx:76-98 | the first group yields an item iff it is visible, and that item is the row for it |
| InstitutionDetails.OwnerSeesEveryGroup | src/screens/InstitutionDetails.tsx:76-82 | an owner sees every group, in order, with no grant id (also line 98) |
| InstitutionDetails.MemberSeesGrantedGroups | src/screens/InstitutionDetails.tsx:84-98 | a member sees a group iff holding a grant on it |
| InstitutionDetails.ManageEnabled | src/screens/InstitutionDetails.tsx:159 | manage and new-group are available iff owner or moderator (also line 185) |
| InstitutionDetails.InstitutionDetailsScreen.constructor | src/screens/InstitutionDetails.tsx:31-34 | the screen starts loading with no data |
| InstitutionDetails.InstitutionDetailsScreen.Load | src/screens/InstitutionDetails.tsx:44-101 | stores the institution on success and keeps it on failure; dispatches exactly the route's owner flag and the moderator test; only non-owners fetch their membership; the list is the visible groups once memberships are known |
| Home.OwnedItems | src/screens/Home.tsx:58-67 | one item per owned institution, owned iff its owner is the user, with no membership id |
| Home.ParticipatingAreAccepted | src/screens/Home.tsx:69-82 | only accepted memberships give participating items, in order, with their id and level |
| Home.RowsOfCons | src/screens/Home.tsx:69-82 | prepending a membership and its row keeps the rows in step with the memberships |
| Home.InstitutionList | src/screens/Home.tsx:84 | the list is the owned items followed by the participating items |
| Home.MembershipIdMarksParticipation | src/screens/Home.tsx:58-84 | an item carries a membership id iff it comes from an accepted membership |
| Home.Tab | src/screens/Home.tsx:35 | a tab shows exactly the items whose `owned` matches it |
| Home.TabsPartition | src/screens/Home.tsx:35 | the two tabs together hold every item exactly once |
| Home.PendingInvites | src/screens/Home.tsx:36 | true iff the user data is loaded and some membership is pending |
| Home.CreateInstitution | src/screens/Home.tsx:177 | an institution is created iff the user is an admin, owned by that user |
| Home.HomeScreen.constructor | src/screens/Home.tsx:28-33 | the screen starts loading on the first tab with no data |
| Home.HomeScreen.Load | src/screens/Home.tsx:42-54 | success stores the user data and the assembled list; failure sets the error; loading ends |
| Home.HomeScreen.SelectFilter | src/screens/Home.tsx:35 | selecting a tab shows only items of that ownership |
| PatientDetails.ByCreatedAtIsTotalPreorder | src/screens/PatientDetails.tsx:53-55 | the creation-time comparator is a valid sort order |
| PatientDetails.NumberSummaries | src/screens/PatientDetails.tsx:57-65 | one item per summarization in order; item k is named "Sumarização #0" + (k+1) and copies id, status and tags |
| PatientDetails.AssembleSummaries | src/screens/PatientDetails.tsx:51-69 | no patient data gives no list; otherwise the array is sorted in place by creation time, stays a permutation in which summarizations created at the same time keep their order, and is numbered |
| PatientDetails.ActionsFollowGrantLevel | src/screens/PatientDetails.tsx:149 | remove-from-group iff owner, moderator or level >= 111; new recording iff owner, moderator or level >= 11 (also lines 185-186) |
| PatientDetails.RemoveFromGroupRequest | src/screens/PatientDetails.tsx:75-83 | removing from the group patches only the group id, to "" |
| Invitations.Invitation.constructor | src/screens/Invitations.tsx:34 | an invitation object with its id and status |
| Invitations.PendingOf | src/screens/Invitations.tsx:27 | exactly the invitations whose status is pending |
| Invitations.AnswerStatus | src/screens/Invitations.tsx:44 | accept maps to ACCEPTED and decline to REJECTED |
| Invitations.InvitationsScreen.constructor | src/screens/Invitations.tsx:23-25 | the screen starts with no invitations |
| Invitations.InvitationsScreen.Pending | src/screens/Invitations.tsx:27 | empty while loading; otherwise exactly the pending invitations |
| Invitations.InvitationsScreen.Load | src/screens/Invitations.tsx:31-41 | success stores the invitations; failure sets the error; loading ends |
| Invitations.InvitationsScreen.UpdateInvite | src/screens/Invitations.tsx:43-56 | on success only the matching invitation changes status, in place, and leaves the pending list; failure sets the error; with no match the error is the message of the TypeError the engine throws |
| SummaryDetails.TableContents | src/screens/SummaryDetails.tsx:60-66 | empty iff insights or tags are missing; otherwise five rows |
| SummaryDetails.TableRowsMatchFindings | src/screens/SummaryDetails.tsx:60-66 | the five rows carry the five finding lists in the fixed title order |
| SummaryDetails.DownloadUriOfBucketPath | src/screens/SummaryDetails.tsx:77 | a "gs://" path downloads from the storage host followed by "/" and the rest of the path |
| SummaryDetails.StatusBanner | src/screens/SummaryDetails.tsx:149-163 | COMPLETED and PROCESSING show as themselves; every other status shows as failed |
| SummaryDetails.SummaryDetailsScreen.constructor | src/screens/SummaryDetails.tsx:39-51 | the screen starts loading with every flag cleared |
| SummaryDetails.SummaryDetailsScreen.Load | src/screens/SummaryDetails.tsx:68-92 | success stores the summary; a download happens iff it has an audio path, from the storage URI |
| SummaryDetails.SummaryDetailsScreen.DeleteEntry | src/screens/SummaryDetails.tsx:99-111 | the intention is cleared; success confirms; failure sets the error |
| SummaryDetails.SummaryDetailsScreen.ValidateEntry | src/screens/SummaryDetails.tsx:113-132 | an empty or unchanged text sets "no changes" with no call; otherwise the exact text is sent, and afterwards the modal is closed and validation has ended |
| Lists.Filter | src/screens/Home.tsx:35 | the kept elements pass the test, every passing element is kept, in order |
| Lists.FilterPartition | src/screens/Home.tsx:35 | filtering by a test and by its negation splits a list without loss |
| Lists.FilterThreeWay | src/screens/ManageMembers.tsx:34-35 | three exclusive tests split a list without loss |
| Lists.FilterThreeWayStep | src/screens/ManageMembers.tsx:34-35 | the head of a list goes to exactly one of three exclusive filters |
| Lists.Search | src/screens/ManagePatients.tsx:34 | an empty search keeps everything; otherwise exactly the elements whose name includes it, in order |
| Lists.FindIndex | src/screens/EditMember.tsx:98 | `findIndex`: the first position whose element passes the test, or -1 iff none does (also lines 118, 138, 155 and src/screens/Invitations.tsx:48) |
| Sorting.SortInPlace | src/screens/PatientDetails.tsx:53-55 | the array is sorted by the comparator, is a permutation of its old contents, and is a stable rearrangement: elements that tie keep their relative order |
| Sorting.InsertAt | src/screens/PatientDetails.tsx:53-55 | inserting the next element into the sorted prefix leaves a longer sorted prefix, a permutation, and ties in their original order |
| Sorting.SortedAndStable | src/screens/PatientDetails.tsx:53-55 | a fully inserted array is sorted and a stable rearrangement, each original position used once |
| Sorting.SwapKeepsInserting | src/screens/PatientDetails.tsx:53-55 | moving the inserted element past a strictly greater neighbour keeps the ordering and tie bookkeeping |
| Sorting.InsertedIsSorted | src/screens/PatientDetails.tsx:53-55 | when the inserted element meets a neighbour not after it, the prefix is sorted with ties in order |
| Sorting.SortByName | src/screens/ManagePatients.tsx:40 | the array is in name order, a permutation of its old contents, and elements with equal names keep their relative order |
| Sorting.ByNameTies | src/screens/ManagePatients.tsx:40 | two elements tie under the name comparator iff their names are equal |
| ManageMembers.InvitedMembers | src/screens/ManageMembers.tsx:34 | exactly the pending members, in order |
| ManageMembers.RealMembers | src/screens/ManageMembers.tsx:35 | exactly the accepted members, in order |
| ManageMembers.MembersSplitByStatus | src/screens/ManageMembers.tsx:34-35 | invited, real and rejected members together are every member exactly once, so rejected members are in neither list |
| ManageMembers.ManageMembersScreen.constructor | src/screens/ManageMembers.tsx:23-26 | the screen starts loading with no members and an empty search |
| ManageMembers.ManageMembersScreen.FilteredMembers | src/screens/ManageMembers.tsx:36 | exactly the accepted members whose name includes the search, or all of them when it is empty |
| ManageMembers.ManageMembersScreen.Load | src/screens/ManageMembers.tsx:38-50 | success sorts the fetched array by name in place, stably and stores it; search is disabled iff nothing was fetched; failure sets the error; loading ends (also line 73) |
| ManagePatients.ManagePatientsScreen.constructor | src/screens/ManagePatients.tsx:23-26 | the screen starts loading with no patients and an empty search |
| ManagePatients.PatientsMatching | src/screens/ManagePatients.tsx:34 | exactly the patients whose name includes the search, or all when it is empty, as a subsequence (also the list of src/screens/AddPatientToGroup.tsx:34) |
| ManagePatients.ManagePatientsScreen.Load | src/screens/ManagePatients.tsx:36-48 | success sorts the fetched array by name in place, stably and stores it; search is disabled iff nothing was fetched; failure sets the error; loading ends (also line 71) |
| ManageGroupMembers.ManageGroupMembersScreen.constructor | src/screens/ManageGroupMembers.tsx:23-26 | the screen starts loading with no grants and an empty search |
| ManageGroupMembers.ManageGroupMembersScreen.FilteredGroupMembers | src/screens/ManageGroupMembers.tsx:33 | exactly the grants whose member's name includes the search, or all when it is empty, as a subsequence |
| ManageGroupMembers.ManageGroupMembersScreen.Load | src/screens/ManageGroupMembers.tsx:35-47 | success sorts the fetched array by member name in place, stably and stores it; search is disabled iff nothing was fetched; failure sets the error; loading ends (also line 68) |
| AddPatientToGroup.IsUnassigned | src/screens/AddPatientToGroup.tsx:40 | a patient is unassigned iff its group id is absent or empty |
| AddPatientToGroup.AddToGroupRequest | src/screens/AddPatientToGroup.tsx:57 | the patch sends only the group and the institution for the selected patient |
| AddPatientToGroup.RemovedPatientIsOfferedAgain | src/screens/AddPatientToGroup.tsx:40 | a patient removed from its group is listed again; one added to a group with an id is not (also line 57) |
| AddPatientToGroup.UnassignedListing | src/screens/AddPatientToGroup.tsx:40-41 | any reordering of the unassigned patients lists exactly them, and is empty iff every patient has a group |
| AddPatientToGroup.AddPatientToGroupScreen.constructor | src/screens/AddPatientToGroup.tsx:23-32 | the screen starts loading with nothing selected |
| AddPatientToGroup.AddPatientToGroupScreen.Load | src/screens/AddPatientToGroup.tsx:36-53 | success keeps exactly the unassigned patients, sorted by name, with equal names in their fetched order; search and add are disabled iff there are none; a failure is only logged; loading ends (also lines 87, 117) |
| AddPatientToGroup.AddPatientToGroupScreen.Select | src/screens/AddPatientToGroup.tsx:95 | tapping a patient selects it |
| AddPatientToGroup.AddPatientToGroupScreen.AddPatient | src/screens/AddPatientToGroup.tsx:55-68 | the selected patient is patched into the group; success goes back; loading stays on afterwards, also on failure |

## Left out

- HTTP and file transport (`src/services/*.ts`, `src/providers/ApiProvider.ts`, the audio download to the file system): each call's outcome is an input `Response` to the method that awaits it. Logging with `console.log` is not modelled.
- Asynchrony: a handler and the promise callbacks it schedules are modelled as one step. Late responses after the screen is left, double taps and the order of overlapping requests are not modelled.
- Rendering and navigation: navigation is a flag at most (`navigatedBack`, `navigatedToSignIn`), and the route parameters are constructor arguments.
- `localeCompare` is modelled as code-point lexicographic order (`Text.NameLe`), which is a total order. Locale collation rules are not modelled.
- Clock and locale: `toDateFormat`, `toDateFormatLong` and `daysBetween` are left out. The `Date` parsing inside `leaveNumbersOnly` is replaced by integer day, month and year. `toISOString` and the `Date`/`parseFloat` conversions of the create and update requests are left out; the requests carry the text instead.
- `ResetPassword.ParseInt`: leading whitespace and a sign are not accepted, and `parseInt` accepts them. The only text the screen parses is the fixed code "123".
- `PatientDetails.AssembleSummaries` requires every summarization to have insights. The source reads `summary.insights.tags` and would throw on a missing insights object.
- `ResetPassword.ResetPasswordScreen` methods require the phase whose controls they belong to. Those controls are rendered only in that phase.
- The store wiring: `src/store/store.ts` registers only the session slice, yet the group and patient screens read `state.access`. The permission slice is modelled on its own, and the screens take the permissions they read as an argument.
- Fields of the backend records that no modelled screen reads. The type declarations in `src/@types/index.ts` disagree with how the records are used, so the records follow their use in the screens.
- The audio recording and playback screens and components (`NewRecording`, `Player`, `SmallPlayer`) are not part of this model. They are driven by the audio SDK's callbacks.
- The screens that only put a non-empty check in front of one request (`ManageGroup`, `ManageInstitution`, `NewGroup`, `NewInstitution`, `NewMember`, `SignIn`, `Preferences`) are not part of this model.
- Pure presentation components (`src/components/*`, `src/styles/theme.ts`, the route files other than the sign-in/app switch, `App.tsx`) are not part of this model.
