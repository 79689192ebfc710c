# Matrix product integration for PVARKI: a Dafny model

The repository has two near-identical FastAPI services and a React UI
component:

- `matrixrmapi` is the service the Authority (RASENMAEHER) calls.
- `rmfpapi` is the client-facing service.
- The UI component is the onboarding guide.

This project models the parts of them that make decisions:

- **Guard and user events.** The Authority-origin guard `comes_from_rm`
  compares the caller certificate's CN with the manifest's `certcn`. Five
  user-lifecycle notifications sit behind it (module `UserCrud`).
- **Manifest.** The deployment manifest has a built-in default document.
  Its `functools.cache` memoisation is a write-once slot in a class
  (`Manifest`).
- **Descriptions.** Both services serve language-keyed product
  descriptions, v1 and v2, in the shared record shapes (`Schemas`,
  `MatrixDescription`, `RmfpDescription`).
- **User markdown.** The per-user markdown of `get_info` is the guard, a
  choice of template and interpolation (`UserInfo`).
- **Download fragment.** The deprecated fragment holds two zip archives of
  the user certificate as base64 `data:` URIs. Base64 is written out per
  section 4 of RFC 4648, with a decoder, so that the payload is proved
  recoverable (`Base64`, `ClientInfo`).
- **Instructions.** The canned instructions answer (`Instructions`).
- **CORS origin pattern.** It is derived from the Authority's base URI by
  two ordered `str.replace` calls (`App`).
- **Developer CLI.** Its log-level choice, host normalisation, healthcheck
  URL and exit code (`Console`).
- **Onboarding guide.** It has two parts:
  - the 32-bit `hashString` behind its storage keys, as a loop
    (`OnboardingHash`);
  - its step state machine, a class whose fields are the React state and
    whose `store` field is localStorage (`OnboardingGuide`). The callsign
    and the deployment are fields too. The deployment is "" until the
    healthcheck answers (ui/src/hooks/helpers/useHealthcheck.ts), and
    `UpdateMeta` re-runs the restore effect when either value changes.
    Steps completed before the deployment is known are therefore kept
    only in memory, and a list stored for that deployment replaces them
    (`CompletedBeforeDeploymentKnown`).

Python string operations are written out in `PyStr`: `replace`, `split`,
substring tests, `str()` of integers and base-36 digits. Shared values are
in `Common`: `Option`/`Result`, the raised errors, JSON documents, the
parsed DN and the user record.

What a call cannot know becomes a parameter:

- the DN parsed by the mTLS middleware;
- the manifest document;
- whether the manifest file exists and parses;
- the zip archiver;
- the HTTP status and body of the healthcheck;
- the rendering of JSON lists and dicts by `str()`.

The model makes two choices of its own:

- A failed guard or a missing key is an `Err` result carrying the error
  Python would raise.
- A deployment or callsign that is "not yet known" in the UI is the empty
  string.

The Swedish v2 description of `matrixrmapi` is kept exactly as the source
file stores it, with the mis-encoded "f√∂r" (U+221A U+2202). The `rmfpapi`
copy has the correct "för".

## Model

| member | source | states |
|---|---|---|
| Common.Subscript | src/matrixrmapi/api/usercrud.py:21 | `doc[key]` succeeds exactly when doc is a dict holding key and then yields its value; KeyError for a missing key, a type error on a non-dict |
| Common.SubscriptPath | src/matrixrmapi/app.py:20 | an empty path gives the document itself; a failure is a type error or the KeyError of a key on the path |
| Common.DnCn | src/matrixrmapi/api/usercrud.py:21 | `dn.get("CN")` is the CN string when present and None (JSON null) otherwise |
| UserCrud.ComesFromRm | src/matrixrmapi/api/usercrud.py:17-22 | an error reaching certcn is raised as is; otherwise the request passes exactly when the DN's CN equals certcn, and is refused with 403 otherwise |
| UserCrud.CertCn | src/matrixrmapi/api/usercrud.py:20-21 | certcn is found exactly when the manifest is a dict whose "rasenmaeher" entry is a dict holding "certcn", and then it is that entry |
| UserCrud.PassesIffCnMatches | src/matrixrmapi/api/usercrud.py:19-22 | with a string certcn the guard passes iff the DN has a CN equal to it; every refusal is 403 |
| UserCrud.MissingCnIsForbidden | src/matrixrmapi/api/usercrud.py:21-22 | a DN without CN is refused with 403 for any string certcn (fails closed) |
| UserCrud.NullCertCnAdmitsMissingCn | src/matrixrmapi/api/usercrud.py:21 | a null certcn admits a DN without CN, because None != None is false |
| UserCrud.GuardSeesOnlyCn | src/matrixrmapi/api/usercrud.py:19-21 | two DNs with the same CN (or both without) get the same decision |
| UserCrud.RoutesDistinct | src/matrixrmapi/api/usercrud.py:25-84 | the five handlers are mounted on five distinct method/path pairs |
| UserCrud.Route | src/matrixrmapi/api/usercrud.py:25-75 | only the updated event is a PUT, the other four are POSTs; every route is a single path segment under "/" |
| UserCrud.HandleUserEvent | src/matrixrmapi/api/usercrud.py:25-84 | each handler answers Ok exactly when the guard passes, then success=True; otherwise the guard's error and no result |
| UserCrud.NeverReportsFailure | src/matrixrmapi/api/usercrud.py:33-83 | no input yields success=False |
| UserCrud.OutcomeIndependentOfBody | src/matrixrmapi/api/usercrud.py:31-33 | the answer is the same for every event kind, every body and every DN with the same CN |
| UserCrud.AuthorityGetsSuccessOthersForbidden | src/matrixrmapi/api/usercrud.py:17-34 | with a string certcn the Authority's CN gets success and every other DN gets 403 |
| Manifest.LoadManifest | src/rmfpapi/config.py:19-35 | an absent file gives the default document, a malformed one raises a decode error (and only it fails), a well-formed one is returned unchanged |
| Manifest.CachedCall | src/rmfpapi/config.py:16 | a cached value is returned without loading; with nothing cached the load is the answer and is cached exactly when it returned |
| Manifest.DefaultManifestFields | src/rmfpapi/config.py:21-33 | the default has deployment "manifest_notfound", certcn "rasenmaeher", init base_uri "https://localmaeher.dev.pvarki.fi:4439/" and product dns "matrix.localmaeher.dev.pvarki.fi" |
| Manifest.CallSequence | src/rmfpapi/config.py:16-17 | successive memoised calls give one result per call |
| Manifest.CachedValueSticks | src/rmfpapi/config.py:16 | once a value is cached every later call returns it, whatever the file holds |
| Manifest.FirstSuccessWins | src/rmfpapi/config.py:16-35 | the first call that returns fixes the answer of every later call |
| Manifest.FailureMeansMalformedAndUncached | src/rmfpapi/config.py:16-34 | a call can fail only while nothing is cached and the file is malformed then, and it fails with the decode error |
| Manifest.ManifestProvider.constructor | src/rmfpapi/config.py:16 | the cache starts empty |
| Manifest.ManifestProvider.GetManifest | src/rmfpapi/config.py:16-35 | a cached value is returned without loading; otherwise the file is loaded and the result is cached exactly when it returned |
| Manifest.LogLevel | src/rmfpapi/config.py:12 | LOG_LEVEL is the environment's value, or 20 when unset |
| Schemas.ComponentTypeName | src/matrixrmapi/api/description.py:23 | a component type is written as one of "link", "markdown", "component" |
| Schemas.ParseComponentType | src/matrixrmapi/api/description.py:23 | exactly those three literals validate |
| Schemas.ComponentTypeRoundTrip | src/matrixrmapi/api/description.py:20-24 | validating a written type gives it back, and a literal that validates to a type is that type's written name |
| MatrixDescription.DescriptionV1 | src/matrixrmapi/api/description.py:44-68 | succeeds iff the code is fi or en, else 404; shortname "matrix", title "Matrix", no icon, the requested language, and the fi/en descriptions |
| MatrixDescription.DescriptionV2 | src/matrixrmapi/api/description.py:71-107 | never fails and echoes the code; fixed icon, docs URL and component ref of type component; fi "Feikkituote", sv "Falsk produkt", every other code "Matrix" / "Matrix messaging service" |
| MatrixDescription.AssetPaths | src/matrixrmapi/api/description.py:83-87 | the icon path and the component ref are built from the shortname "matrix" |
| MatrixDescription.V2FallsBackToEnglish | src/matrixrmapi/api/description.py:99-107 | every code other than fi and sv gets the en entry with its own code |
| MatrixDescription.V2AgreesWithV1 | src/matrixrmapi/api/description.py:51-107 | where v1 answers, v2 has the same shortname, description and language, and the same title only for en |
| RmfpDescription.MdUrl | src/rmfpapi/api/description.py:76 | the markdown URL is the proxy prefix, the language, then "/info.md" |
| RmfpDescription.MdUrlRoundTrip | src/rmfpapi/api/description.py:76 | the language can be read back from the markdown URL |
| RmfpDescription.MdUrlInjective | src/rmfpapi/api/description.py:76 | distinct languages get distinct markdown URLs |
| RmfpDescription.DescriptionV1 | src/rmfpapi/api/description.py:43-67 | succeeds iff the code is fi or en, else 404; fi titled "Feikkituote", en "Matrix" / "Matrix product"; no icon, the requested language |
| RmfpDescription.DescriptionV2 | src/rmfpapi/api/description.py:70-107 | never fails and echoes the code; no icon; a markdown component whose URL carries the code; fi "Feikkituote", sv "Falsk produkt", every other code "Matrix Product" |
| RmfpDescription.V2FallsBackToEnglish | src/rmfpapi/api/description.py:99-107 | every code other than fi and sv, en included, gets the en entry with its own code and markdown URL |
| RmfpDescription.V1AndV2Compared | src/rmfpapi/api/description.py:50-107 | v1 and v2 agree on fi and differ in title and description on en |
| UserInfo.GetCallsign | src/rmfpapi/api/userinfo.py:18-21 | the DN's CN, or the text "None" when absent |
| UserInfo.FormatValue | src/rmfpapi/api/userinfo.py:34-51 | an f-string shows a string as itself and None as "None" |
| UserInfo.SelectTemplate | src/rmfpapi/api/userinfo.py:35-52 | "fi" selects the Finnish template and every other code the English one |
| UserInfo.Fill | src/rmfpapi/api/userinfo.py:36-52 | a template (FinnishTemplate and EnglishTemplate hold the two markdown texts) with the callsign and the deployment text put in its two holes |
| UserInfo.GuardPassImpliesObject | src/rmfpapi/api/userinfo.py:31-34 | a manifest the guard accepts is a dict, so `manifest.get` cannot fail |
| UserInfo.DeploymentValue | src/rmfpapi/api/userinfo.py:34 | `manifest.get("deployment")` is the value or None |
| UserInfo.GetInfo | src/rmfpapi/api/userinfo.py:24-52 | fails exactly when the guard refuses, with its error; otherwise the language's template filled with the body's callsign and the deployment text |
| UserInfo.FillContains | src/rmfpapi/api/userinfo.py:39-41 | the callsign and the deployment text appear verbatim at their holes |
| UserInfo.InfoMentionsCallsignAndDeployment | src/rmfpapi/api/userinfo.py:31-52 | for an accepted caller the markdown contains the deployment string and the body's callsign, in every language |
| UserInfo.MissingDeploymentReadsNone | src/rmfpapi/api/userinfo.py:34 | without a deployment key the text "None" is interpolated |
| UserInfo.NonAuthorityForbidden | src/rmfpapi/api/userinfo.py:31 | a caller that is not the Authority gets 403 and no markdown |
| Base64.Value6 | src/rmfpapi/api/clientinfo.py:36 | the value of an alphabet character is a 6-bit number |
| Base64.Value6OfChar6 | src/rmfpapi/api/clientinfo.py:36 | the alphabet decodes back to its 6-bit value |
| Base64.Char6IsEncodingChar | src/rmfpapi/api/clientinfo.py:36 | every encoded digit is an alphabet character and not the pad |
| Base64.Encode | src/rmfpapi/api/clientinfo.py:36-41 | `b64encode` yields 4 characters per started group of 3 bytes |
| Base64.GroupRoundTrip | src/rmfpapi/api/clientinfo.py:36 | a full 3-byte group decodes back from its 4 characters |
| Base64.OneByteRoundTrip | src/rmfpapi/api/clientinfo.py:36 | a final single byte decodes back from its "xx==" group |
| Base64.TwoBytesRoundTrip | src/rmfpapi/api/clientinfo.py:36 | a final pair of bytes decodes back from its "xxx=" group |
| Base64.DecodeEncode | src/rmfpapi/api/clientinfo.py:36-41 | decoding the encoding gives back the bytes |
| Base64.EncodeAlphabet | src/rmfpapi/api/clientinfo.py:36-41 | the encoding uses only the alphabet and the pad |
| Base64.EncodeHasNoComma | src/rmfpapi/api/clientinfo.py:36-41 | the encoding holds no comma |
| ClientInfo.DataUri | src/rmfpapi/api/clientinfo.py:36-41 | the data URI is the zip media-type head, a comma and the base64 text |
| ClientInfo.ClientInstructionFragment | src/rmfpapi/api/clientinfo.py:26-44 | two entries, iMatrix then aMatrix, files callsign_1.zip and callsign_2.zip, each the data URI of the archive of the certificate as callsign_1.pem or callsign_2.pem |
| ClientInfo.DataUriRoundTrip | src/rmfpapi/api/clientinfo.py:36-41 | splitting on "," yields exactly the head and the payload, and the payload decodes to the archive |
| ClientInfo.FragmentPayloads | src/rmfpapi/api/clientinfo.py:30-44 | both entries split into two parts whose payload decodes to the archive of their own pem file; the two filenames differ |
| Instructions.UserInstructions | src/matrixrmapi/api/instructions.py:15-22 | exactly the keys callsign, instructions, language: the body's callsign, the placeholder text, and always "en" |
| Instructions.AnswerDependsOnCallsignOnly | src/matrixrmapi/api/instructions.py:15-22 | two answers are equal exactly when the callsigns are, whatever the path language, uuid or certificate |
| PyStr.IsSubstringIffOccurs | src/matrixrmapi/console.py:47 | `sub in s` holds exactly when sub occurs at some index |
| PyStr.NotSubstringWithoutChar | src/matrixrmapi/console.py:47 | text lacking a character of sub does not contain sub |
| PyStr.ReplaceAllAbsent | src/matrixrmapi/app.py:21 | `replace` with an absent pattern changes nothing |
| PyStr.ReplaceAllPrefix | src/matrixrmapi/app.py:21 | a text starting with the pattern has it replaced at the start, then the rest is scanned |
| PyStr.Split | tests/test_fragment.py:34 | `split` gives at least one part |
| PyStr.JoinSplit | tests/test_fragment.py:34 | joining the parts of a split with the separator gives the text back |
| PyStr.SplitAbsent | tests/test_fragment.py:34 | text without the separator splits into itself alone |
| PyStr.SplitAfterFirst | tests/test_fragment.py:34 | a separator after a separator-free head splits off exactly that head |
| PyStr.NatToString | ui/src/components/OnboardingGuide.tsx:22 | `toString(radix)` gives at least one digit, each below the radix, and no leading zero |
| PyStr.StringToNatOfNatToString | ui/src/components/OnboardingGuide.tsx:22 | the digits read back as the number |
| PyStr.StringToNatLeadingZeros | ui/src/components/OnboardingGuide.tsx:22 | leading zeros from `padStart` do not change the value |
| PyStr.IntToDecimal | src/matrixrmapi/console.py:50 | `str(n)`: a minus sign for a negative n, then decimal digits 0-9 with no leading zero, reading back as the magnitude of n |
| App.CorsOriginRegex | src/matrixrmapi/app.py:19-21 | the path rasenmaeher.init.base_uri must exist (its error is raised otherwise) and be a string; then the pattern is the two replacements of it |
| App.DeploymentDomainRegex | src/matrixrmapi/app.py:21 | the two replacements in the source's order, dots first and then the scheme; RegexOfHttpsBase gives its closed form and OrderMatters shows the order counts |
| App.EscapeDotsAppend | src/matrixrmapi/app.py:21 | escaping dots distributes over concatenation |
| App.UnescapeEscapeDots | src/matrixrmapi/app.py:21 | the base URI can be read back from its dot-escaped text |
| App.EscapeCreatesNoPattern | src/matrixrmapi/app.py:21 | escaping dots creates no new "https://" |
| App.RegexOfHttpsBase | src/matrixrmapi/app.py:21 | for "https://" + host the pattern is "https://(.*\.)?" then the host with literal dots, and the host reads back from it |
| App.UnchangedWithoutDotsOrScheme | src/matrixrmapi/app.py:21 | a base with neither "." nor "https://" is returned unchanged |
| App.Example | src/matrixrmapi/app.py:21 | "https://a.b:1/" becomes "https://(.*\.)?a\.b:1/" |
| App.OrderMatters | src/matrixrmapi/app.py:21 | escaping after inserting the subdomain group would also escape the group's own dot |
| App.DefaultBaseUri | src/rmfpapi/config.py:24 | the default base URI is https on localmaeher.dev.pvarki.fi:4439/ |
| App.DefaultManifestRegex | src/matrixrmapi/app.py:19-21 | for the default manifest the pattern text is "https://(.*\.)?" followed by the default host "localmaeher.dev.pvarki.fi:4439/" with its dots escaped |
| Console.CliLogLevel | src/matrixrmapi/console.py:21-28 | no -v keeps --loglevel, one -v gives 20, two or more give 10 |
| Console.MoreVerboseNeverQuieter | src/matrixrmapi/console.py:25-28 | more -v never raises the level, and with -v it is 10 or 20 |
| Console.NormaliseHost | src/matrixrmapi/console.py:47-48 | a host without "://" gets "http://", one with it is unchanged |
| Console.NormaliseHostIdempotent | src/matrixrmapi/console.py:47-48 | a normalised host contains "://", so normalising is idempotent |
| Console.HealthcheckUrl | src/matrixrmapi/console.py:47-50 | the URL is the normalised host, a colon, the port's decimal digits and the healthcheck path; the digits read back as the port for every int, a minus sign first for a negative one |
| Console.DefaultHealthcheckUrl | src/matrixrmapi/console.py:35-50 | with the defaults the URL is http://localhost:8012/api/v1/healthcheck |
| Console.HealthcheckExit | src/matrixrmapi/console.py:44-57 | a non-200 status is the exit code; on 200 a failed parse or a missing "healthy" raises, a falsy entry exits 1 and a truthy one 0 |
| Console.Truthy | src/matrixrmapi/console.py:55 | Python truthiness of the "healthy" entry: null, false, 0, "" and empty containers are falsy |
| Console.ExitZeroIffHealthy | src/matrixrmapi/console.py:51-57 | for real HTTP statuses, exit 0 exactly when the answer is 200 with a truthy "healthy" |
| Console.ExitOneIffUnhealthy | src/matrixrmapi/console.py:51-57 | for real HTTP statuses, exit 1 exactly when the answer is 200 with a falsy "healthy" |
| OnboardingHash.Int32 | ui/src/components/OnboardingGuide.tsx:19-20 | ToInt32 lands in [-2^31, 2^31) and keeps values already there |
| OnboardingHash.Utf16 | ui/src/components/OnboardingGuide.tsx:18 | `charCodeAt` ranges over 16-bit code units, at least one per character |
| OnboardingHash.Utf16OfBmp | ui/src/components/OnboardingGuide.tsx:18 | without astral characters there is one unit per character equal to its code |
| OnboardingHash.StepIsTimes31 | ui/src/components/OnboardingGuide.tsx:19-20 | one iteration is int32(31 * hash + unit) |
| OnboardingHash.HashOf | ui/src/components/OnboardingGuide.tsx:16-21 | the folded hash is a 32-bit signed value |
| OnboardingHash.HashIsWrappedPoly | ui/src/components/OnboardingGuide.tsx:16-21 | wrapping at every step equals wrapping the unwrapped polynomial sum of units times powers of 31 once |
| OnboardingHash.PadStart | ui/src/components/OnboardingGuide.tsx:22 | `padStart(n)` gives at least n characters |
| OnboardingHash.Prefix | ui/src/components/OnboardingGuide.tsx:22 | `slice(0, n)` gives at most n characters |
| OnboardingHash.DigitsBound | ui/src/components/OnboardingGuide.tsx:22 | a number below radix^k has at most k digits |
| OnboardingHash.KeyShape | ui/src/components/OnboardingGuide.tsx:22 | every key is exactly 8 base-36 digits |
| OnboardingHash.KeyValue | ui/src/components/OnboardingGuide.tsx:22 | the key of a 32-bit hash reads back as its absolute value: the slice cuts nothing |
| OnboardingHash.HashKeyProperties | ui/src/components/OnboardingGuide.tsx:15-23 | hashString gives 8 base-36 digits whose value is the absolute 32-bit hash |
| OnboardingHash.EmptyKey | ui/src/components/OnboardingGuide.tsx:15-23 | the empty string hashes to "00000000" |
| OnboardingHash.KeysCollide | ui/src/components/OnboardingGuide.tsx:15-23 | "Aa" and "BB" share a key |
| OnboardingHash.HashString | ui/src/components/OnboardingGuide.tsx:15-23 | the loop computes the key of the specification fold |
| OnboardingHash.HashKey | ui/src/components/OnboardingGuide.tsx:15-23 | the key of a string is the base-36 key of the 32-bit hash of its UTF-16 code units (its shape and value are HashKeyProperties) |
| OnboardingGuide.GetOnboardingImage | ui/src/components/OnboardingGuide.tsx:53-65 | the result is the desktop or the mobile image; always the desktop one when forced or not mobile |
| OnboardingGuide.HomePageOnboardingSteps | ui/src/components/OnboardingGuide.tsx:33-50 | the two home-page steps, welcome and test, whatever the theme (their properties are HomePageSteps) |
| OnboardingGuide.MobileImageChosen | ui/src/components/OnboardingGuide.tsx:58-62 | a distinct mobile image is chosen exactly on mobile, unforced, when it is non-empty |
| OnboardingGuide.HomePageSteps | ui/src/components/OnboardingGuide.tsx:33-50 | two steps with distinct ids; only the second's mobile image "/" is ever shown, on unforced mobile |
| OnboardingGuide.StorageKeys | ui/src/components/OnboardingGuide.tsx:154-158 | the seen key and the steps key of one user differ; the steps key is the seen key with "steps-" before the callsign |
| OnboardingGuide.SeenKey | ui/src/components/OnboardingGuide.tsx:154 | the seen key: deployment hash, "-mtx-onboarding-", callsign, "-", path (StorageKeys relates it to the steps key) |
| OnboardingGuide.StepsKey | ui/src/components/OnboardingGuide.tsx:158 | the steps key: deployment hash, "-mtx-onboarding-steps-", callsign, "-", path |
| OnboardingGuide.FirstIncomplete | ui/src/components/OnboardingGuide.tsx:171-173 | findIndex: -1 iff every step is completed, otherwise the first index whose id is not completed |
| OnboardingGuide.ResumeStep | ui/src/components/OnboardingGuide.tsx:169-177 | the resumed step is the first incomplete one: every earlier step is completed and it is not, unless every step is completed, and then it is the last step |
| OnboardingGuide.AddOnce | ui/src/components/OnboardingGuide.tsx:231-252 | the id is present afterwards; an id already there leaves the list unchanged; otherwise nothing is lost or reordered and exactly one id is added; a list without duplicates keeps none |
| OnboardingGuide.AddOnceIdempotent | ui/src/components/OnboardingGuide.tsx:233-251 | recording a step twice records it once |
| OnboardingGuide.AddAll | ui/src/components/OnboardingGuide.tsx:249-253 | the completed list after recording each id in turn with AddOnce (AddAllDistinct gives it for distinct ids) |
| OnboardingGuide.AddAllDistinct | ui/src/components/OnboardingGuide.tsx:249-253 | recording distinct ids one by one, starting from nothing, lists exactly those ids in that order |
| OnboardingGuide.Guide.constructor | ui/src/components/OnboardingGuide.tsx:90-98 | the initial state: closed, step 0, nothing completed, image loading |
| OnboardingGuide.Guide.Restore | ui/src/components/OnboardingGuide.tsx:150-183 | nothing changes until callsign and deployment are known; then the guide opens iff it is not seen, a stored list becomes the completed list, and a non-empty list on an unseen guide resumes at ResumeStep with review allowed; storage, callsign and deployment are unchanged |
| OnboardingGuide.Guide.PickUpStoredSteps | ui/src/components/OnboardingGuide.tsx:162-181 | a stored list becomes the completed list; a non-empty one on an unseen guide moves to ResumeStep and allows review; without a list nothing changes |
| OnboardingGuide.Guide.UpdateMeta | ui/src/components/OnboardingGuide.tsx:150-183 | the new callsign and deployment are taken; the restore effect runs exactly when one of them changed, and otherwise the guide state is unchanged |
| OnboardingGuide.Guide.HandleNext | ui/src/components/OnboardingGuide.tsx:202-208 | advances by one, resetting the image flags, unless on the last step; the step stays in range |
| OnboardingGuide.Guide.HandlePrev | ui/src/components/OnboardingGuide.tsx:210-216 | goes back by one, resetting the image flags, unless on the first step; the step stays in range |
| OnboardingGuide.Guide.HandleReviewClick | ui/src/components/OnboardingGuide.tsx:218-222 | review mode, step 0, open |
| OnboardingGuide.Guide.HandleOpenChange | ui/src/components/OnboardingGuide.tsx:224-247 | closing in review mode only leaves review mode; closing otherwise, when the deployment is known, records the current step once and writes the list under the steps key (with the deployment unknown it records nothing), and in every case allows review; opening changes nothing else |
| OnboardingGuide.Guide.SaveProgress | ui/src/components/OnboardingGuide.tsx:228-242 | with the deployment known, the current step joins the completed list once and that list is written under the steps key even when it did not grow; with it unknown, list and storage stay as they were; review is allowed afterwards and nothing else changes |
| OnboardingGuide.Guide.RecordCurrentStep | ui/src/components/OnboardingGuide.tsx:250-261 | the current step id is appended unless present, and the steps key is written only when the list grew and the deployment is known; nothing else changes |
| OnboardingGuide.Guide.HandleComplete | ui/src/components/OnboardingGuide.tsx:249-279 | records the current step once; on the last step stores the seen flag "true" (so it is set when the deployment is known), closes, allows review and leaves review mode; otherwise advances by one |
| OnboardingGuide.FinishedGuideStaysClosed | ui/src/components/OnboardingGuide.tsx:150-183 | after the last step is completed for a known user and deployment, the seen flag is set, and a guide mounted later over that storage stays closed once it learns the same callsign and deployment |
| OnboardingGuide.CompletedBeforeDeploymentKnown | ui/src/components/OnboardingGuide.tsx:150-183 | a completion made while the deployment is unknown leaves storage alone; when the deployment arrives a list stored for it replaces the completed list, and a guide not seen under that deployment opens again |
| OnboardingGuide.CompletingInOrder | ui/src/components/OnboardingGuide.tsx:169-177 | with distinct step ids, recording the first i step ids in turn (as HandleComplete does) lists exactly those ids, so a restore resumes at step i, and after all of them no step is incomplete |

## Left out

- DN parsing: the mTLS middleware of libpvarki is not part of this model. Its parsed `request.state.mtlsdn` is an input, and the 403 for a missing header belongs to it.
- The matrixrmapi config module and the rmfpapi copy of the guard are not part of this model. The manifest is a parameter, and the rmfpapi guard is taken to be `UserCrud.ComesFromRm`.
- The matrixrmapi clientinfo and userinfo modules are not part of this model. The rmfpapi copies are modelled.
- Manifest file I/O: `Path.exists`, `read_text` and `json.loads` are an input of three cases (absent, malformed, parsed document).
- JSON values are modelled with integer numbers only; floats are left out.
- Manifest.LogLevel: the environment is given as integers, so the `int` cast of the text (and its failure) is not modelled.
- zip_pem: DEFLATE compression in `zipfile` is a foreign library and is a function parameter; only its inputs (the certificate and the pem name) are fixed.
- UserInfo.FormatValue: `str()` of a JSON list or dict (Python's repr) is a parameter; booleans, integers, strings and None are rendered as Python does.
- The admin fragment endpoint renders a Jinja template, which is foreign; the healthcheck endpoint returns a constant. Neither is modelled.
- FastAPI routing, pydantic validation, the CORS middleware and router assembly are framework wiring and are not modelled. Only the route table of the user events is.
- Console: click option parsing, `LOGGER.setLevel`, the aiohttp request, its timeout and the JSON echo are I/O. The status and parsed body are inputs.
- Console.HealthcheckExit: the process exit status is the code modulo 256 on POSIX, so an HTTP status of 512 would end as 0; the model gives the exit code `doit` returns.
- Logging throughout is left out.
- App.CorsOriginRegex: only the text of the pattern is modelled, not how the web framework matches it against an Origin header. Whether an origin matches a pattern that ends in the base URI's "/" is therefore not stated.
- OnboardingGuide: React rendering, dialogs, toasts, i18n, image preloading and its cache, `imageEnlarged`, and the floating-point progress percentage are left out.
- OnboardingGuide.Guide.Restore: `JSON.parse` of the stored steps text is modelled as the store holding the list itself. A stored plain text under the steps key is treated as no list; the source would parse it or throw.
- OnboardingGuide.Guide: an unknown callsign is modelled as the empty string, where the source's template would write "undefined" into the key.
- OnboardingGuide.Guide: the path switch keeps the home-page steps for every path. The steps are a constructor parameter with at least one step, and `HomePageOnboardingSteps` supplies them.
- OnboardingGuide.Guide: `showCompletion` is never set to true in the source, so the model keeps it false as part of `Valid`.
- OnboardingGuide.Guide: UpdateMeta is called by the environment for each new callsign or deployment; when React renders in between is not modelled.
- OnboardingGuide.Guide: React batches state updates within one handler; each method applies them as one atomic step.
- The other UI files (app shell, pages, metadata context, the healthcheck hook, the build configuration) are left out.
- Concurrency is left out. The handlers share no state but the write-once manifest cache, which is modelled sequentially.
