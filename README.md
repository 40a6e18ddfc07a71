# Profile fetching, text filtering and invite selection of a Signal-derived iOS client

This project models, in Dafny, the decision logic of three parts of an iOS
messaging client and proves properties of it:

- **`ProfileFetcherJob`** fetches the public profile (identity key) of each
  recipient of a conversation thread. A process-wide map of last-attempt
  timestamps throttles fetches to one per recipient per five minutes (no
  throttling in debug builds); the timestamp is written before the request
  goes out. A transport failure with an error is retried while
  `remainingRetries > 1` (three attempts from the default). A response is
  decoded by `SignalServiceProfile.init?`, which accepts only a string-keyed
  dictionary whose `identityKey` is a base64 string of exactly 33 bytes and
  strips the leading key-type byte. The fetched key is then reconciled with
  the trusted one: nothing happens on first use; otherwise the key is saved,
  and the recipient's sessions are archived when the save reports a change.
- **`DisplayableTextFilter`** replaces "zalgo" text (a character made of more
  than four Unicode scalars) with its diacritic-insensitive folding, passes
  other text through and keeps nil as nil.
- **`InviteFlow`**'s contact-picker rules: which contacts may be selected for
  the chosen channel, and the SMS or mail recipient list built from the
  selection (first phone number, or first email, of each contact that has one).

Modules: `Basics` (Option, Result, byte), `Base64` (section 4 of RFC 4648,
the decoding behind `Data(base64Encoded:)`, with an encoder as its reference),
`ServiceProfile` (the response decoder), `IdentityStore` (the identity and
session store the job calls), `ProfileFetcher` (the job: pure specification
functions `GetProfileSpec`, `RunPrefix`, `Reconcile`; the classes
`FetchDateMap`, `NetworkManager`, `ProfileFetcherJob` whose methods are proved
to implement them; and the lemmas), `DisplayableTextFilter`, `InviteFlow`.

Time is an integer number of milliseconds; the production window is 300 000 ms.
The clock and the network's answers are an environment `env: nat -> Attempt`:
the k-th call of a retry chain (the first call and each retry) reads the clock
as `env(k).now` and, if it sends a request, gets `env(k).outcome`.

The retries do not behave as the code's shape suggests. The default
`remainingRetries: Int = 3` (`ProfileFetcherJob.swift:41`) and the retry at
lines 81-84 suggest three attempts on a transport failure. But the timestamp is
written at line 55, before the request goes out, and the retry is dispatched at
once, with no delay. So in a production build a retry that comes within five
minutes of the failed attempt is stopped by the throttle check at lines 43-53
and sends nothing (`ImmediateRetryIsThrottled`). Three attempts happen only when
each retry comes after the window, for instance in a debug build with a moving
clock (`PersistentFailureUsesEveryRetry`). The model follows the code.

## Model

| member | source | states |
|---|---|---|
| `Base64.SextetToChar` | TestChat/Signal/src/ProfileFetcherJob.swift:133 | the alphabet character for a 6-bit value is an alphabet character that decodes back to that value |
| `Base64.Decode` | TestChat/Signal/src/ProfileFetcherJob.swift:133 | `Data(base64Encoded:)` as strict section 4 of RFC 4648 with padding: an accepted string holds only alphabet and pad characters, with pad characters only in its last two positions; `DecodeEncode` and `DecodedLength` state the rest |
| `Base64.DecodeEncode` | TestChat/Signal/src/ProfileFetcherJob.swift:133 | base64 decoding undoes base64 encoding for every byte string |
| `Base64.DecodedLength` | TestChat/Signal/src/ProfileFetcherJob.swift:133 | a string that decodes has a length divisible by four and yields three bytes per quantum less one per pad character |
| `ServiceProfile.RemoveKeyType` | TestChat/Signal/src/ProfileFetcherJob.swift:145 | the key without its type is one byte shorter and holds the bytes after the first |
| `ServiceProfile.Decode` | TestChat/Signal/src/ProfileFetcherJob.swift:120-146 | a decoded profile keeps the given recipient id and a 32-byte key whose type-prefixed form is what the response's `identityKey` string decodes to |
| `ServiceProfile.RejectsWhatItShould` | TestChat/Signal/src/ProfileFetcherJob.swift:123-142 | a response that is not a string-keyed map, lacks an `identityKey` string, holds invalid base64, or decodes to other than 33 bytes yields a failure with that reason and no record |
| `ServiceProfile.DecodeSucceedsIff` | TestChat/Signal/src/ProfileFetcherJob.swift:120-146 | decoding succeeds iff the key string decodes to exactly 33 bytes, and the key is those bytes from the second on |
| `ServiceProfile.AcceptedKeyStringShape` | TestChat/Signal/src/ProfileFetcherJob.swift:133-142 | an accepted key string is 44 characters with no padding |
| `ServiceProfile.DecodesEncodedResponse` | TestChat/Signal/src/ProfileFetcherJob.swift:120-146 | a response carrying the base64 of any type byte plus a 32-byte key, with any other fields, decodes to that key for the requested recipient |
| `IdentityStore.Store.IdentityKey` | TestChat/Signal/src/ProfileFetcherJob.swift:99 | the trusted key is present exactly when one is stored for the recipient, and is that key |
| `IdentityStore.Store.SaveRemoteIdentity` | TestChat/Signal/src/ProfileFetcherJob.swift:104 | the key becomes trusted, the save is logged, and the result reports whether a different key was replaced |
| `IdentityStore.Store.ArchiveAllSessions` | TestChat/Signal/src/ProfileFetcherJob.swift:106 | the archive of the recipient's sessions is logged and nothing else changes |
| `ProfileFetcher.FetchDateMap.constructor` | TestChat/Signal/src/ProfileFetcherJob.swift:18 | the process-wide throttle map starts empty |
| `ProfileFetcher.NetworkManager.MakeRequest` | TestChat/Signal/src/ProfileFetcherJob.swift:59-61 | issuing a request logs it for the recipient and delivers the network's answer |
| `ProfileFetcher.ProfileFetcherJob.constructor` | TestChat/Signal/src/ProfileFetcherJob.swift:24-29 | a job holds its thread's recipients and its collaborators |
| `ProfileFetcher.ProfileFetcherJob.Run` | TestChat/Signal/src/ProfileFetcherJob.swift:31-39 | running the job leaves the state that fetching each recipient in order with the default retries specifies |
| `ProfileFetcher.ProfileFetcherJob.GetProfile` | TestChat/Signal/src/ProfileFetcherJob.swift:41-87 | the throttle check, stamp, request, decode, reconciliation and retries change the map, request log and store exactly as `GetProfileSpec` says |
| `ProfileFetcher.ProfileFetcherJob.ProcessResponse` | TestChat/Signal/src/ProfileFetcherJob.swift:89-95 | a decoded profile is reconciled for its recipient with its key |
| `ProfileFetcher.ProfileFetcherJob.VerifyIdentityUpToDate` | TestChat/Signal/src/ProfileFetcherJob.swift:97-111 | the store changes exactly as `Reconcile` says |
| `ProfileFetcher.ReconcileFirstUse` | TestChat/Signal/src/ProfileFetcherJob.swift:99-102 | with no trusted key, reconciliation saves nothing, archives nothing and leaves the store unchanged |
| `ProfileFetcher.ReconcileWithTrustedKey` | TestChat/Signal/src/ProfileFetcherJob.swift:104-109 | with a trusted key, exactly one save is made, the fetched key becomes trusted, and sessions are archived iff the key changed |
| `ProfileFetcher.ReconcileAgainArchivesNothing` | TestChat/Signal/src/ProfileFetcherJob.swift:104-109 | reconciling the same key a second time changes no key and archives no further session |
| `ProfileFetcher.GetProfileTouchesOnlyRecipient` | TestChat/Signal/src/ProfileFetcherJob.swift:41-87 | a call chain leaves every other recipient's timestamp and trusted key unchanged, never removes a timestamp, and only appends requests and archives for its own recipient |
| `ProfileFetcher.ThrottledCallChangesNothing` | TestChat/Signal/src/ProfileFetcherJob.swift:43-54 | a call no later than the window after the last attempt issues no request and changes no state |
| `ProfileFetcher.UnthrottledCallStampsThenRequests` | TestChat/Signal/src/ProfileFetcherJob.swift:43-61 | an unthrottled call, including any for a recipient never attempted, issues a request and stamps the current time whatever the answer |
| `ProfileFetcher.RecipientAlwaysRecorded` | TestChat/Signal/src/ProfileFetcherJob.swift:43-55 | after any call chain the recipient has a timestamp |
| `ProfileFetcher.RequestsBounded` | TestChat/Signal/src/ProfileFetcherJob.swift:41-86 | a call chain issues at most `remainingRetries` requests (at least one allowed) |
| `ProfileFetcher.DefaultChainIssuesAtMostThree` | TestChat/Signal/src/ProfileFetcherJob.swift:41-86 | from the default of three retries a chain issues at most three requests |
| `ProfileFetcher.PersistentFailureUsesEveryRetry` | TestChat/Signal/src/ProfileFetcherJob.swift:72-86 | when every attempt fails with an error and each retry comes after the window, exactly `remainingRetries` requests are issued |
| `ProfileFetcher.ImmediateRetryIsThrottled` | TestChat/Signal/src/ProfileFetcherJob.swift:43-86 | a retry within the window of a failed attempt sends nothing: one request in all, the store untouched |
| `ProfileFetcher.MalformedResponseEndsChain` | TestChat/Signal/src/ProfileFetcherJob.swift:63-68 | a response that does not decode leads to neither retry nor reconciliation |
| `ProfileFetcher.NilErrorEndsChain` | TestChat/Signal/src/ProfileFetcherJob.swift:72-77 | a failure with a nil error leads to neither retry nor reconciliation |
| `ProfileFetcher.DecodedResponseIsReconciled` | TestChat/Signal/src/ProfileFetcherJob.swift:63-70 | a decoded response is reconciled with its key, after exactly one request |
| `ProfileFetcher.RunCoversThread` | TestChat/Signal/src/ProfileFetcherJob.swift:31-39 | after running a thread every recipient of it has a timestamp, others keep theirs, and every new request is for a recipient of the thread: at most three per occurrence of that recipient in the thread, so at most 3·n in all |
| `DisplayableTextFilter.HasExcessiveDiacriticals` | TestChat/Signal/src/util/DisplayableTextFilter.swift:26-37 | the scan answers true iff some character has more than four scalars |
| `DisplayableTextFilter.DisplayableText` | TestChat/Signal/src/util/DisplayableTextFilter.swift:12-24 | nil stays nil; text with an excessive character becomes its folding; other text is returned unchanged |
| `DisplayableTextFilter.EmptyTextIsKept` | TestChat/Signal/src/util/DisplayableTextFilter.swift:26-37 | the empty text is never excessive and is shown as it is |
| `DisplayableTextFilter.FourScalarsAreTolerated` | TestChat/Signal/src/util/DisplayableTextFilter.swift:28-36 | text whose characters have at most four scalars each is returned unchanged |
| `DisplayableTextFilter.ExcessiveIffSomePartIs` | TestChat/Signal/src/util/DisplayableTextFilter.swift:28-36 | a concatenation is excessive iff one of its parts is: only the existence of an offending character matters |
| `DisplayableTextFilter.FilterIdempotent` | TestChat/Signal/src/util/DisplayableTextFilter.swift:12-24 | when the folding leaves no excessive character, filtering twice equals filtering once |
| `InviteFlow.ShouldSelectContact` | TestChat/Signal/src/ViewControllers/InviteFlow.swift:110-125 | on the message channel a contact is selectable iff it has a phone number, on mail iff it has an email, and otherwise always |
| `InviteFlow.FirstPhoneNumbers` | TestChat/Signal/src/ViewControllers/InviteFlow.swift:98-100 | the SMS recipients are no more than the contacts, and each is the first phone number of some contact |
| `InviteFlow.FirstEmails` | TestChat/Signal/src/ViewControllers/InviteFlow.swift:101-103 | the mail recipients are no more than the contacts, and each is the first email of some contact |
| `InviteFlow.InviteFor` | TestChat/Signal/src/ViewControllers/InviteFlow.swift:89-107 | an invite is sent iff the channel is message or mail, as SMS to the first phone numbers or as mail to the first emails |
| `InviteFlow.InviteFlow.constructor` | TestChat/Signal/src/ViewControllers/InviteFlow.swift:24 | a new flow has no channel |
| `InviteFlow.InviteFlow.ChooseMessage` | TestChat/Signal/src/ViewControllers/InviteFlow.swift:137-143 | the message action sets the channel to message |
| `InviteFlow.InviteFlow.ChooseMail` | TestChat/Signal/src/ViewControllers/InviteFlow.swift:195-202 | the mail action sets the channel to mail |
| `InviteFlow.InviteFlow.ShouldSelect` | TestChat/Signal/src/ViewControllers/InviteFlow.swift:110-125 | the picker callback answers as the selection rule does for the current channel |
| `InviteFlow.InviteFlow.DidSelectMultipleContacts` | TestChat/Signal/src/ViewControllers/InviteFlow.swift:89-107 | the picker callback hands on the invite the channel and selection call for |
| `InviteFlow.FirstPhoneNumbersAppend` | TestChat/Signal/src/ViewControllers/InviteFlow.swift:99 | SMS recipients keep contact order: the list for joined contact lists is the joined lists |
| `InviteFlow.FirstEmailsAppend` | TestChat/Signal/src/ViewControllers/InviteFlow.swift:102 | mail recipients keep contact order: the list for joined contact lists is the joined lists |
| `InviteFlow.SelectedForMessageAllReceive` | TestChat/Signal/src/ViewControllers/InviteFlow.swift:98-118 | when every contact passed the message selection rule, the i-th SMS recipient is the i-th contact's first phone number |
| `InviteFlow.SelectedForMailAllReceive` | TestChat/Signal/src/ViewControllers/InviteFlow.swift:101-120 | when every contact passed the mail selection rule, the i-th mail recipient is the i-th contact's first email |
| `InviteFlow.UnreachableContactIsDropped` | TestChat/Signal/src/ViewControllers/InviteFlow.swift:99 | a contact without a phone number contributes nothing to the SMS recipients |

## Left out

- Dispatch queues and threading: the main-queue hop of `run`, the background retry and the session-store queue are plain sequential calls. Each recipient's retry chain runs to completion before the next recipient's first call, so the interleaving of retries of different recipients is not modelled. The model also treats the throttle check and the stamp as one atomic step. The source does not guarantee that: a retry runs `getProfile` on `DispatchQueue.global()` (`ProfileFetcherJob.swift:82-83`), so it reads and writes `fetchDateMap` at lines 43 and 55 off the main queue, against the main-queue-only comment at line 17. Races on the map are not modelled.
- `Date` and `fabs(timeIntervalSinceNow)` floating-point time: integer milliseconds, with the elapsed time taken as the absolute difference.
- The network transport (`TSNetworkManager.makeRequest`, `OWSGetProfileRequest`): each request's answer comes from the environment parameter, as a response object or a failure with an optional error.
- `OWSIdentityManager` and `TSStorageManager` are not part of this model. The store is modelled by the contract the job relies on: `saveRemoteIdentity` makes the key trusted and reports a change iff a different key was stored.
- `removeKeyType` is not part of this model; it is modelled as dropping the first byte.
- `Data(base64Encoded:)` is modelled as strict section 4 of RFC 4648 base64. Whether Foundation rejects non-zero bits left over by padding is not modelled; the decoder discards them.
- `SignalServiceProfile.init?` returns nil on every rejection; the model's `ServiceProfile.Decode` also names which guard rejected, as the log lines do.
- Grapheme segmentation and `String.folding(options: .diacriticInsensitive, locale:)`: text is given already split into characters, and the folding is an abstract function parameter.
- `Logger` calls and `assertionFailure`: no behaviour beyond logging (the assertion only traps in debug builds).
- The rest of `InviteFlow.swift`: the Twitter, SMS and mail composers, the action sheet, appearance changes and localised strings.
- The other files of the repository (the progress view, the experience-upgrade record, the notifications adapter, the registration view controller and the header files): presentation, persistence seams or forwarding only.
