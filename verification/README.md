# TaxViet core: accounts, session and per-user ledger

A Dafny model of the business logic inside the `App` component of TaxViet, a
personal tax-estimation assistant for household businesses. The component keeps
a directory of registered users, remembers which one is logged in, and keeps
that user's saved tax estimates ("records") and profile in memory and in
`localStorage`, one pair of keys per account. The model lifts this logic out of
React into one small state machine:

- `Text`: the identifier normalisation: trim, then lowercase. `trim` removes
  exactly ECMAScript's whitespace and line terminators; lowercasing covers the
  ASCII letters.
- `Types`: `TaxRecord`, `UserProfile` and `TaxCalculationData`, with `status`
  restricted to `paid`/`pending`.
- `Accounts`: the directory with `handleRegister` and `handleLogin`. These
  cover normalised lookup (`users.find`), duplicate refusal, and the
  password check that is skipped for an absent or empty password.
- `Ledger`: saving a calculation result (prepend a pending record), delete by
  id (a filter) and toggle status (a map).
- `Scope`: the store as a map from key to decoded value, the keys
  `registered-users`, `last-session-user`, `tax-records-<id>` and
  `user-profile-<id>`, `INITIAL_PROFILE`, and how an account's records and
  profile are read back, with their defaults.
- `App`: the component state and one function per handler. Each handler
  commits its state updates, then the component's effects run as one
  synchronous after-step. The effects are the scope switch on session or
  directory change and the write-backs under the active account's keys. The
  module also has mounting, the store/state invariant, and the lemmas that tie
  them together: per-account partitioning, switching away and back, and
  resuming after a restart.

The session is JavaScript's `string | null`. The effects test it for
truthiness, so a session equal to the empty string behaves as logged out
(`App.ActiveUser`). The tax amount of a saved record is an input. The time-based
record id and the formatted date are inputs too.

Three behaviours of the code are easy to miss:

- A default profile is not held back until the first explicit update. The
  write-back effect stores it as soon as the account becomes active.
- The password check happens only for a non-empty password.
- The remembered session is restored at start-up without checking that the
  account exists.

## Model

| member | source | states |
|---|---|---|
| `Text.Trim` | App.tsx:107 | `trim()` leaves no whitespace at either end and never lengthens its input |
| `Text.TrimIsInfix` | App.tsx:107 | the result of `trim()` is an infix of its input, and only whitespace is cut off before and after it |
| `Text.ToLower` | App.tsx:107 | lowercasing keeps the length, lowers each character in place and leaves no upper-case ASCII letter |
| `Text.NormalizeIdempotent` | App.tsx:126 | a normalised identifier normalises to itself |
| `Text.NormalizeIsLowerAndTrimmed` | App.tsx:126-136 | a normalised identifier has no upper-case ASCII letter and no whitespace at either end, so lowercasing a stored normalised identifier gives it back |
| `Text.NormalizeIgnoresCase` | App.tsx:107-108 | two identifiers that agree after lowercasing normalise to the same identifier |
| `Text.TrimLowerCommute` | App.tsx:107 | trimming and lowercasing commute |
| `Text.Normalize` | App.tsx:107 | a normalised identifier has no upper-case ASCII letter, no whitespace at either end, and is never longer than the input |
| `Accounts.Find` | App.tsx:108 | the lookup both handlers share finds nothing exactly when no stored identifier lowercases to the key; what it finds is a stored user that matches the key |
| `Accounts.FindIndex` | App.tsx:108 | `users.find` picks the first user whose lowercased identifier equals the key, and finds none exactly when no user matches |
| `Accounts.Register` | App.tsx:125-140 | registration is refused with a duplicate error exactly when some stored identifier lowercases to the normalised one; otherwise exactly one user is appended with the normalised identifier, its name and password, the old entries keep their order and content, and the normalised identifier becomes the session |
| `Accounts.Login` | App.tsx:106-120 | login reports "account not found" exactly when no stored identifier lowercases to the normalised input, and "invalid credentials" exactly when the first match has another password and the supplied one is non-empty; success yields the normalised identifier |
| `Accounts.RegisterKeepsUnique` | App.tsx:125-139 | an accepted registration keeps stored identifiers pairwise distinct after lowercasing |
| `Accounts.RegisterAllKeepsUnique` | App.tsx:125-139 | any series of registration attempts keeps the identifiers distinct after lowercasing |
| `Accounts.RegisterFromEmptyUnique` | App.tsx:39-42 | starting from an empty directory, no two stored identifiers are equal after lowercasing |
| `Accounts.FindAfterRegister` | App.tsx:108-139 | after a registration, looking up its normalised identifier finds the appended user |
| `Accounts.LoginAfterRegister` | App.tsx:106-140 | after registering, logging in with any case variant of the identifier, with no password or the registered one, succeeds with the stored identifier |
| `Accounts.RegisterCaseVariantRefused` | App.tsx:125-132 | registering a case variant of a registered identifier is refused as a duplicate |
| `Accounts.EmptyPasswordSkipsCheck` | App.tsx:115 | an empty password skips the check, so login succeeds for any registered identifier |
| `Accounts.RegisterThenLoginExample` | App.tsx:106-140 | registering `A@B.com`, then logging in as `a@b.com`, succeeds with session `a@b.com` |
| `Ledger.PeriodLabel` | App.tsx:155 | a quarterly calculation is labelled `Quý 2026` and a yearly one `Năm 2026`, and each label belongs to one period only |
| `Ledger.NewRecord` | App.tsx:157-163 | the new record carries the given id, the calculated revenue and the given tax amount, and is pending |
| `Ledger.NewRecordDescription` | App.tsx:155-159 | a new record's description is `Dự toán `, then the period's label, then a space and the date in parentheses |
| `Ledger.DescriptionDistinguishes` | App.tsx:155-159 | two saved records have the same description exactly when they were saved for the same period on the same date |
| `Ledger.Flip` | App.tsx:195 | flipping a status always changes it |
| `Ledger.ToggleRecord` | App.tsx:195 | toggling one record changes its status and no other field |
| `Ledger.Delete` | App.tsx:194 | delete keeps no record with the id, and every other record exactly as many times as before |
| `Ledger.Toggle` | App.tsx:195 | toggle keeps positions and length, flips the status of records with the id and leaves every other record unchanged |
| `Ledger.SaveResult` | App.tsx:150-165 | without calculation data save is a no-op; otherwise it prepends one pending record with the calculated revenue, the given tax amount and the given id, and the rest of the list is unchanged |
| `Ledger.SaveAllPrepends` | App.tsx:165 | after N saves the list has grown by N, the saved records come newest first and the old list follows unchanged |
| `Ledger.LatestSaveFirst` | App.tsx:165 | after several saves the head of the list is the latest save |
| `Ledger.DeleteAbsent` | App.tsx:194 | deleting an id no record carries leaves the list unchanged |
| `Ledger.DeleteAppend` | App.tsx:222 | delete filters each part of a list separately, so the remaining records keep their relative order |
| `Ledger.DeleteIdempotent` | App.tsx:194 | deleting the same id twice is deleting it once |
| `Ledger.ToggleAbsent` | App.tsx:195 | toggling an id no record carries leaves the list unchanged |
| `Ledger.ToggleInvolution` | App.tsx:223 | toggling the same id twice restores the original list |
| `Ledger.DeleteAfterToggle` | App.tsx:194-195 | deleting an id after toggling it removes the same records as deleting it directly |
| `Ledger.ToggleCommutes` | App.tsx:195 | toggles of two ids commute |
| `Scope.RecordsKey` | App.tsx:56 | an account's records key starts with `tax-records-`, is as long as that prefix and the identifier together, and continues with a lower-case string; which identifiers share a key is stated by `Scope.AccountKeysInjective` |
| `Scope.ProfileKey` | App.tsx:57 | an account's profile key starts with `user-profile-`, is as long as that prefix and the identifier together, and continues with a lower-case string; which identifiers share a key is stated by `Scope.AccountKeysInjective` |
| `Scope.UsersReadBack` | App.tsx:39-42 | the directory read back is the one last written under `registered-users`, none once that key is absent, and writes under other keys do not change it |
| `Scope.SessionReadBack` | App.tsx:35-37 | the session read back is the identifier last written under `last-session-user`, none once that key is removed, and writes under other keys do not change it |
| `Scope.RecordsReadBack` | App.tsx:56-59 | records written for one account are read back by exactly the identifiers equal to it once lowercased; writes under other keys are not seen; with nothing stored the records are empty |
| `Scope.ProfileReadBack` | App.tsx:57-61 | a profile written for one account is read back by exactly the identifiers equal to it once lowercased; writes under other keys are not seen; with nothing stored the default profile is read |
| `Scope.DefaultProfileName` | App.tsx:23-31 | the default profile equals `INITIAL_PROFILE` in every field but the name; the name is the full name of the first account whose identifier matches the session once lowercased, or `Người dùng` when that name is empty or no account matches |
| `Scope.AccountKeysInjective` | App.tsx:56-57 | two sessions share a records key, or a profile key, exactly when their identifiers are equal after lowercasing |
| `Scope.KeyKindsDistinct` | App.tsx:72-83 | records keys, profile keys, the directory key and the session key never collide |
| `Scope.AccountKeysDisjoint` | App.tsx:70-80 | accounts whose identifiers differ after lowercasing have disjoint keys, and neither meets the directory or session key |
| `App.EmptySessionActsLoggedOut` | App.tsx:54-80 | a session equal to the empty string is falsy, so the effects treat it exactly as no session: records and profile reset, the remembered session is removed, and no account's keys are written |
| `App.SwitchScope` | App.tsx:54-68 | the scope switch never changes the directory, the session or the pending calculation |
| `App.Persist` | App.tsx:70-84 | the write-back effects change only the store |
| `App.Effects` | App.tsx:54-84 | the effects never change the directory, the session or the pending calculation; without a scope switch they keep the records and profile; when no dependency changed they change nothing |
| `App.AfterStep` | App.tsx:54-84 | after a commit the directory, session and pending calculation are the committed ones, and a commit that changed nothing runs no effect |
| `App.Start` | App.tsx:35-52 | mounting reads the directory and remembered session from the store with no pending calculation; with a session in effect the records and profile are that account's stored ones, otherwise empty records and `INITIAL_PROFILE` |
| `App.EffectsTouchOnlyActive` | App.tsx:54-84 | the effects write nothing but the directory key, the session key and the active account's two keys |
| `App.AfterStepConsistent` | App.tsx:54-84 | after any committed update, the effects leave the store mirroring the state: the directory is stored; with an active session its identifier is remembered and its records and profile are stored under its keys; with none, no session is remembered |
| `App.RecordsUpdate` | App.tsx:70-74 | a handler that only replaces the records keeps everything else and stores the new list under the active account's key when it changed |
| `App.ScopeSwitchLoads` | App.tsx:54-84 | a commit that changes the session or the directory, leaving a non-empty session, loads that account's stored records and profile, remembers its lowercased identifier, and stores a changed directory |
| `App.Commit` | App.tsx:106-206 | handlers never write the store themselves; only effects do |
| `App.Dispatch` | App.tsx:106-206 | an action is refused exactly when its handler reports an error, and then the state is unchanged and the error is the handler's; a done action leaves the directory, session and pending calculation the handler set |
| `App.Step` | App.tsx:106-206 | an action its handler refuses leaves the state unchanged |
| `App.HandleRegister` | App.tsx:125-143 | a duplicate is refused with the state unchanged; an accepted registration appends the normalised user, sets the session to the normalised identifier and persists the directory; when that identifier is non-empty it also loads the new account's stored or default data and remembers the session (an all-whitespace identifier gives the empty session, which acts as logged out); the result is the generic dispatch of a registration |
| `App.HandleLogin` | App.tsx:106-123 | an unknown account or a wrong non-empty password leaves the whole state unchanged; success sets the session to the normalised identifier, leaves the state unchanged when that was already the session, and, when the session changes to a non-empty identifier, loads the records and profile from that account's keys and remembers the session; the result is the generic dispatch of a login |
| `App.HandleLogout` | App.tsx:145-148 | logout clears the session; when a session was set it also resets records to empty and profile to `INITIAL_PROFILE` and removes the remembered session; every stored entry other than the remembered session stays as it was |
| `App.HandleCalculate` | App.tsx:200 | the calculator's result becomes the pending calculation and nothing else changes |
| `App.HandleSaveResult` | App.tsx:150-168 | without calculation data nothing changes; otherwise the new record is prepended and, with an active session, the list is stored under that account's records key; the result is the generic step of a save |
| `App.HandleDelete` | App.tsx:194 | the records become the filtered list and, when that changes them, it is stored under the active account's key; the result is the generic step of a delete |
| `App.HandleToggle` | App.tsx:195 | the records become the toggled list and, when that changes them, it is stored under the active account's key; the result is the generic step of a toggle |
| `App.HandleUpdateProfile` | App.tsx:206 | the profile becomes the edited one and, when it changed, is stored under the active account's profile key |
| `App.StepKeepsConsistent` | App.tsx:54-84 | every action keeps the store mirroring the state |
| `App.StepTouchesOnlyActive` | App.tsx:70-84 | every action writes only the directory key, the session key and the keys of the account active after it |
| `App.StartConsistent` | App.tsx:35-84 | mounting on any store gives a state the store mirrors |
| `App.RunKeepsConsistent` | App.tsx:54-84 | any sequence of actions keeps the store mirroring the state |
| `App.StepKeepsOtherAccount` | App.tsx:70-80 | an action after which an account is not active leaves its stored records and profile untouched |
| `App.RunKeepsOtherAccount` | App.tsx:70-80 | actions during which an account is never active leave its stored records and profile untouched |
| `App.UntouchedAccount` | App.tsx:70-80 | writes confined to the active account's keys leave every other account's keys alone |
| `App.LoginKeepsOtherAccounts` | App.tsx:106-123 | a login, accepted or refused, leaves the stored records and profile of every account not active afterwards untouched |
| `App.RegisterKeepsOtherAccounts` | App.tsx:125-143 | a registration, accepted or refused, leaves the stored records and profile of every account not active afterwards untouched |
| `App.LogoutKeepsAccounts` | App.tsx:63-67 | logout leaves every account's stored records and profile untouched |
| `App.LoginLoadsStored` | App.tsx:54-61 | logging in as an account that is not active loads exactly what is stored under its keys |
| `App.SwitchBackRestores` | App.tsx:54-80 | logging out, running actions that never activate the account, then logging back in restores the account's records and profile unchanged |
| `App.RegisterNamesProfile` | App.tsx:60-61 | a new account with no stored profile starts from `INITIAL_PROFILE` named after its full name, or `Người dùng` when that is empty |
| `App.RestartResumes` | App.tsx:35-62 | reopening the app on the store resumes the active session with the same directory, records and profile |

## Left out

- The VAT/PIT computation (threshold and expense methods) is left out: it lives in the calculator and result components, which are not part of this model. The tax amount of a saved record is an input.
- View navigation (`currentView`, `renderView`, `AppView`) is left out: it is presentation only.
- Toasts and their three-second timer are left out. A refusal is reported as the error its toast names.
- Theme, language, notification and Face ID preferences, with their storage keys and DOM updates, are left out: they are browser I/O with no core logic.
- JSON serialisation is left out: the store holds decoded values. An entry whose value has the wrong shape is read as absent. Malformed JSON, which would make `JSON.parse` throw, is not modelled.
- `Date.now()` and the date formatting are left out: the record id and the formatted date are parameters. Id uniqueness is not claimed.
- The assistant's `Message` type is left out: it belongs to the chat feature.
- Passwords are compared as plain strings, as in the source; no hashing.
- Text.ToLower: lowercases only the ASCII letters. JavaScript's `toLowerCase` also lowercases other scripts, such as Vietnamese capitals; full Unicode case mapping is out of scope.
- Strings are sequences of Unicode scalar values rather than UTF-16 code units. This makes no difference to `trim`, whose whitespace set lies in the Basic Multilingual Plane.
- Monetary amounts and rates are `real`: the core only copies them, so floating-point behaviour does not arise.
- App.AfterStep: React runs the effects over two commits. In the first, the write-back effects store the previous in-memory records and profile under the newly active account's keys. The next commit overwrites them with the values the scope switch read before that write. The model keeps only the settled result.
- App.AfterStep: effect dependencies are compared by value, not by reference. A delete or toggle that matches no record builds a new array, so the source rewrites identical content that the model does not rewrite.
- Storage failures, such as a full quota, are not modelled.
