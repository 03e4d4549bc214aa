# Cable Modem Monitor: HNAP login, MB8600 parser, parser registry and HAR sanitizer in Dafny

This project models the core of the Cable Modem Monitor integration in Dafny and proves
properties of that model:

- **The JSON HNAP request builder.** It signs every action call with an `HNAP_AUTH` header:
  an uppercase HMAC-MD5 of the timestamp and the SOAP action URI, followed by the timestamp.
  It sends single and batched (`GetMultipleHNAPs`) calls. It runs the two-step
  challenge-response login that derives and stores the private key.
  The builder is a class whose private key the login updates in place.
- **The Motorola MB8600 HNAP parser.** This covers its declarations and model detection, the
  signed SOAP call, and the inline login, which stores the `uid` and `PrivateKey` cookies.
  It covers the five status fetches filed under `<action>Response`, the decoding of the
  `|+|`/`^`-delimited downstream and upstream channel tables, the system-information
  dictionary, and the recovery path of `parse` that flags authentication failures.
  The two channel rows documented in the parser are worked through to the channels they
  decode to.
- **The parser registry.** Discovery walks the installed parser package and keeps the strict
  `ModemParser` subclasses defined in each module that imports cleanly. The list is sorted
  for the dropdown: manufacturer, then name, with "Unknown" and generic parsers last.
  Two module-level caches, the parser list and the name index, are updated in place.
- **The parser base class and the MB7621 descriptor.** This covers capability tags, class
  defaults, `has_capability`, model detection and URL patterns.
- **The HAR sanitizer helpers.** This covers the sensitive-field test, header and cookie
  redaction, form-urlencoded and JSON body redaction, the walk over entries and pages, and the
  default output name.

How the model is built:

- The device, the network and the clock are inputs. A `Session` is built over the replies
  the device will give, and a `Clock` over the readings it will return. Every method states
  the requests it posts, the replies it consumes and the cookies it leaves.
- Pure logic is functions. A loop the source runs (the fetch loop, the channel-row loops,
  the registry scan, the form-part loop, the header and page loops) is a method with loop
  invariants. It is proved equal to a specification function, and the specification
  function's properties are lemmas.

The sort key orders parsers by manufacturer and then by name
(custom_components/cable_modem_monitor/parsers/__init__.py lines 146-156). It never looks at
priority. `Registry.MotorolaPrioritiesAscend` shows the consequence. The MB7621 (priority 100)
always precedes the MB8600 HNAP parser (priority 101) in the sorted list. Within Motorola,
priorities therefore ascend. That is not the descending order that
tests/parsers/test_parser_loading.py line 72 expects.

## Model

| member | source | states |
|---|---|---|
| BaseParser.CapabilityOf | custom_components/cable_modem_monitor/parsers/base_parser.py:15-52 | a string maps to a capability only if it is that capability's value; any other string is the ValueError case (None) |
| BaseParser.CapabilitiesEnumerated | custom_components/cable_modem_monitor/parsers/base_parser.py:15-52 | the enumeration has exactly ten members with pairwise distinct strings, and every member's string converts back to that member |
| BaseParser.DefaultsDeclareNothing | custom_components/cable_modem_monitor/parsers/base_parser.py:55-103 | a parser that overrides nothing has no capability, manufacturer "Unknown", priority 50 and is not verified |
| BaseParser.ParseResult.Keys | custom_components/cable_modem_monitor/parsers/base_parser.py:136-154 | a parse result always has downstream, upstream and system_info first, plus three more keys exactly when it reports an authentication failure |
| Mb7621.CanParseIff | custom_components/cable_modem_monitor/parsers/motorola/mb7621.py:54-59 | a page is recognised exactly when it contains "MB7621" or "MB 7621"; the "2480-MB7621" test adds nothing |
| Mb7621.UrlPatternsOrder | custom_components/cable_modem_monitor/parsers/motorola/mb7621.py:41-49 | three form-authenticated pages: the software-info page first and public, the other two behind the login |
| Mb7621.DeclaredCapabilities | custom_components/cable_modem_monitor/parsers/motorola/mb7621.py:16-49 | priority above the base default; restart and software version declared, no OFDM; five capabilities |
| Registry.FlatMapMember | custom_components/cable_modem_monitor/parsers/__init__.py:97-141 | an element is in the concatenated results exactly when some input's result contains it |
| Registry.CollectedMember | custom_components/cable_modem_monitor/parsers/__init__.py:97-141 | a class is discovered exactly when it is a strict ModemParser subclass defined in a module that is not skipped, imports cleanly and sits in a searched sub-directory; a failing import contributes nothing and does not stop the scan |
| Registry.StrLessIrreflexive | custom_components/cable_modem_monitor/parsers/__init__.py:146-156 | string comparison is irreflexive |
| Registry.StrLessTrans | custom_components/cable_modem_monitor/parsers/__init__.py:146-156 | string comparison is transitive |
| Registry.StrLessTotal | custom_components/cable_modem_monitor/parsers/__init__.py:146-156 | any two strings are equal or ordered one way |
| Registry.KeyLessIrreflexive | custom_components/cable_modem_monitor/parsers/__init__.py:146-156 | the tuple order on sort keys is irreflexive |
| Registry.KeyLessTrans | custom_components/cable_modem_monitor/parsers/__init__.py:146-156 | the tuple order on sort keys is transitive |
| Registry.KeyLessTotal | custom_components/cable_modem_monitor/parsers/__init__.py:146-156 | any two sort keys are equal or ordered one way |
| Registry.KeyNotAfterTrans | custom_components/cable_modem_monitor/parsers/__init__.py:146-156 | "not after" on sort keys is transitive |
| Registry.WithKeyConcat | custom_components/cable_modem_monitor/parsers/__init__.py:156 | the parsers sharing a key, taken from a concatenation, are those of each part in order |
| Registry.InsertPermutes | custom_components/cable_modem_monitor/parsers/__init__.py:156 | inserting adds exactly the new element |
| Registry.InsertSorted | custom_components/cable_modem_monitor/parsers/__init__.py:156 | inserting into a sorted list keeps it sorted |
| Registry.InsertStable | custom_components/cable_modem_monitor/parsers/__init__.py:156 | inserting puts the new element after every earlier one with the same key |
| Registry.SortByKeySorted | custom_components/cable_modem_monitor/parsers/__init__.py:146-156 | the sorted parser list is nondecreasing in the sort key |
| Registry.SortByKeyPermutes | custom_components/cable_modem_monitor/parsers/__init__.py:156 | the sorted list is a permutation of the discovered classes |
| Registry.SortByKeyStable | custom_components/cable_modem_monitor/parsers/__init__.py:156 | parsers with equal keys keep their discovery order |
| Registry.UnknownLast | custom_components/cable_modem_monitor/parsers/__init__.py:146-151 | in the sorted list an "Unknown" manufacturer's parser comes after every parser whose manufacturer sorts below "ZZZZ" |
| Registry.GenericLast | custom_components/cable_modem_monitor/parsers/__init__.py:146-154 | within a manufacturer a parser whose name contains "Generic" comes after the non-generic ones whose names sort below "ZZZZ" |
| Registry.StrLessPrefix | custom_components/cable_modem_monitor/parsers/__init__.py:146-156 | a common prefix does not change the order of two names |
| Registry.NameOrderWithinManufacturer | custom_components/cable_modem_monitor/parsers/__init__.py:146-156 | within one manufacturer, two non-generic parsers come in name order, whatever their priorities |
| Registry.NotGeneric | custom_components/cable_modem_monitor/parsers/__init__.py:150-151 | a name without a capital G is never treated as generic |
| Registry.MotorolaPrioritiesAscend | custom_components/cable_modem_monitor/parsers/__init__.py:146-156 | in every sorted list the MB7621 (priority 100) precedes the MB8600 HNAP parser (priority 101) |
| Registry.NameIndexLatest | custom_components/cable_modem_monitor/parsers/__init__.py:57-61 | a name is indexed exactly when some parser has it, and it maps to the last parser in the list with that name |
| Registry.NameIndexDomain | custom_components/cable_modem_monitor/parsers/__init__.py:57-61 | the index's names are exactly the parsers' names |
| Registry.NameIndexEntry | custom_components/cable_modem_monitor/parsers/__init__.py:57-61 | an indexed name maps to a parser of that name with no later parser of the same name |
| Registry.Registry.constructor | custom_components/cable_modem_monitor/parsers/__init__.py:33-36 | after import both caches are empty |
| Registry.Registry.ScanModule | custom_components/cable_modem_monitor/parsers/__init__.py:110-141 | the attribute loop collects exactly the module's registered classes, in attribute order |
| Registry.Registry.Discover | custom_components/cable_modem_monitor/parsers/__init__.py:97-156 | the directory and module loops, then the sort, return the sorted discovered classes |
| Registry.Registry.GetParsers | custom_components/cable_modem_monitor/parsers/__init__.py:73-164 | with the cache filled and use_cache set, returns the cached list and changes nothing; otherwise discovers, caches the result, and drops the name index when the cache is bypassed; the index always matches the cached list |
| Registry.Registry.GetParserByName | custom_components/cable_modem_monitor/parsers/__init__.py:39-70 | builds the name index once from the cached (or newly discovered) list, then returns the indexed parser, or None for an unknown name |
| Registry.UniqueNameFound | tests/parsers/test_parser_loading.py:78-84 | a parser whose name no other discovered parser shares is what the name index of the sorted list returns for that name |
| Sanitizer.LongPatternsContainShort | scripts/utils/sanitizer.py:174-192 | "password" and "passwd" contain "pass"; "apikey" and "api_key" contain "key" |
| Sanitizer.PatternIsCore | scripts/utils/sanitizer.py:174-197 | any matching alternative implies that one of the seven core alternatives matches |
| Sanitizer.CoreIsPattern | scripts/utils/sanitizer.py:174-197 | each core alternative is itself one of the pattern's alternatives |
| Sanitizer.SensitiveFieldCore | scripts/utils/sanitizer.py:174-197 | a field is sensitive exactly when its lower-cased name contains one of the seven core alternatives |
| Sanitizer.SensitiveFieldIgnoresCase | scripts/utils/sanitizer.py:189-197 | the test does not depend on ASCII letter case |
| Sanitizer.NameRun | scripts/utils/sanitizer.py:209-211 | a cookie-name run never exceeds the text |
| Sanitizer.ValueRun | scripts/utils/sanitizer.py:209-211 | a cookie-value run never exceeds the text |
| Sanitizer.NameRunChars | scripts/utils/sanitizer.py:209-211 | every character of the name run is a cookie-name character |
| Sanitizer.ValueRunStops | scripts/utils/sanitizer.py:209-211 | a value run ends at a `;` or at the end |
| Sanitizer.NameRunPrefix | scripts/utils/sanitizer.py:209-211 | the name run of name characters followed by a stop is exactly those characters |
| Sanitizer.ValueRunPrefix | scripts/utils/sanitizer.py:209-211 | the value run of non-`;` text followed by `;` or nothing is exactly that text |
| Sanitizer.RedactCookiesAtSemicolon | scripts/utils/sanitizer.py:209-211 | redacting text that is empty or starts at `;` gives text that is empty or starts at `;` |
| Sanitizer.RedactCookiesMatch | scripts/utils/sanitizer.py:209-211 | a leading `name=value` match keeps the name, replaces the value up to the next `;` by "[REDACTED]", and continues after it |
| Sanitizer.RedactCookiesMatchAt | scripts/utils/sanitizer.py:209-211 | the same, given where the value ends |
| Sanitizer.RedactCookiesCopy | scripts/utils/sanitizer.py:209-211 | where no match starts, the first character is kept and the scan moves one on |
| Sanitizer.KeepsRunAtMatch | scripts/utils/sanitizer.py:209-211 | at a match the name run and the `=` survive |
| Sanitizer.KeepsRunAtCopy | scripts/utils/sanitizer.py:209-211 | at a copied character the leading name run survives |
| Sanitizer.RedactCookiesKeepsRun | scripts/utils/sanitizer.py:209-211 | redaction keeps the leading name run and the character after it |
| Sanitizer.PairShape | scripts/utils/sanitizer.py:209-211 | the scan sees `name=value` followed by `;`-text as a match of that name and value |
| Sanitizer.RedactCookiePair | scripts/utils/sanitizer.py:209-211 | a cookie pair keeps its name and gets the value "[REDACTED]"; the rest from the next `;` is redacted the same way |
| Sanitizer.RedactCookiesIdempotent | scripts/utils/sanitizer.py:209-211 | redacting cookies twice is redacting once |
| Sanitizer.SanitizeHeaderValueIdempotent | scripts/utils/sanitizer.py:200-213 | sanitizing a header value twice changes nothing more |
| Sanitizer.SanitizedPairs | scripts/utils/sanitizer.py:216-227 | sanitizing parts keeps their number |
| Sanitizer.SanitizeFormUrlencoded | scripts/utils/sanitizer.py:216-227 | the part loop returns the `&`-join of the sanitized parts |
| Sanitizer.SanitizePart | scripts/utils/sanitizer.py:220-226 | one pass of the part loop gives the sanitized part; the facts about that part are SanitizePairFixed and SanitizePairIdempotent |
| Sanitizer.SanitizePairFixed | scripts/utils/sanitizer.py:216-227 | a part is left alone exactly when it has no `=`, its key is not sensitive, or its value is already "[REDACTED]" |
| Sanitizer.SanitizePairIdempotent | scripts/utils/sanitizer.py:216-227 | sanitizing a part twice changes nothing more |
| Sanitizer.SanitizePairLacks | scripts/utils/sanitizer.py:216-227 | sanitizing introduces no character except those of "=[REDACTED]" |
| Sanitizer.FormSanitizedParts | scripts/utils/sanitizer.py:216-227 | the sanitized body splits at `&` into exactly the sanitized input parts |
| Sanitizer.FormSanitizedIdempotent | scripts/utils/sanitizer.py:216-227 | sanitizing a form body twice changes nothing more |
| Sanitizer.SanitizeJson | scripts/utils/sanitizer.py:269-281 | dicts keep their keys, lists their length, and scalars are returned unchanged |
| Sanitizer.SanitizeJsonCleans | scripts/utils/sanitizer.py:269-281 | afterwards every string under a sensitive key anywhere in the value is "[REDACTED]" |
| Sanitizer.CleanUnchanged | scripts/utils/sanitizer.py:269-281 | a value that is already clean is returned unchanged |
| Sanitizer.SanitizeJsonFixedPoints | scripts/utils/sanitizer.py:269-281 | the values left unchanged are exactly the clean ones, so the sanitizer is idempotent |
| Sanitizer.MapAllShape | scripts/utils/sanitizer.py:284-288 | a list comprehension succeeds exactly when every call does, and then holds each result in order |
| Sanitizer.MapAllPrefixFails | scripts/utils/sanitizer.py:284-288 | once a prefix raises, the whole comprehension raises the same exception |
| Sanitizer.SanitizeHeaders | scripts/utils/sanitizer.py:284-288 | the header loop sanitizes each header in order, or raises the first exception a header raises |
| Sanitizer.SanitizePages | scripts/utils/sanitizer.py:357-362 | the page loop sanitizes each page title in order, or raises the first exception |
| Sanitizer.SetKeyKeeps | scripts/utils/sanitizer.py:291-341 | assigning an existing key of a dict succeeds and keeps the dict's keys |
| Sanitizer.SanitizeHeaderRedacts | scripts/utils/sanitizer.py:200-213 | a header keeps its keys and its name; a sensitive header other than a cookie header gets the value "[REDACTED]" |
| Sanitizer.SanitizePostDataUntouched | scripts/utils/sanitizer.py:243-268 | falsy post data comes back as it is, and so does a dict with neither a "params" nor a "text" member |
| Sanitizer.SanitizeEntryKeys | scripts/utils/sanitizer.py:331-341 | a sanitized HAR entry keeps its keys |
| Sanitizer.SanitizeHarNoLog | scripts/utils/sanitizer.py:344-364 | a HAR without "log" comes back as it was |
| Sanitizer.SanitizeHarShape | scripts/utils/sanitizer.py:344-364 | a sanitized HAR keeps its top-level keys |
| Sanitizer.DefaultOutputPath | scripts/utils/sanitizer.py:377-381 | the default output ends in ".sanitized.har", replaces a ".har" suffix, otherwise extends the input path, and is never the input |
| Md5.HmacMd5UpperShape | custom_components/cable_modem_monitor/core/hnap_json_builder.py:32-37 | the uppercase digest is 32 uppercase hex digits whose lower-casing is the hex digest |
| Md5.HmacMd5UpperIsDigest | custom_components/cable_modem_monitor/parsers/motorola/mb8600_hnap.py:64-68 | the uppercase digest is 32 uppercase hex digits |
| Md5.DigestIsWord | custom_components/cable_modem_monitor/core/hnap_json_builder.py:244-247 | a digest is non-empty and has no whitespace, so it is usable as a key and in a header |
| HnapAuth.TruncatedTimestamp | custom_components/cable_modem_monitor/core/hnap_json_builder.py:72 | the builder's timestamp is below 2 000 000 000 000 |
| HnapAuth.RoundedTimestamp | custom_components/cable_modem_monitor/parsers/motorola/mb8600_hnap.py:86-87 | the parser's timestamp is below 2 000 000 000 000 |
| HnapAuth.AuthHeaderShape | custom_components/cable_modem_monitor/core/hnap_json_builder.py:59-77 | the header is a 32-digit uppercase signature, a space and the decimal timestamp |
| HnapAuth.AuthHeaderTimestamp | custom_components/cable_modem_monitor/parsers/motorola/mb8600_hnap.py:87-90 | the text after the space reads back as the timestamp |
| HnapAuth.TimestampsWithinOne | custom_components/cable_modem_monitor/parsers/motorola/mb8600_hnap.py:86-87 | for a non-negative clock, the rounded timestamp equals the truncated one or exceeds it by one (modulo the wrap) |
| HnapJsonBuilder.SigningKeyOfDigest | custom_components/cable_modem_monitor/core/hnap_json_builder.py:59-77 | a stored non-empty private key is the key signed with |
| HnapJsonBuilder.ActionObjectsShape | custom_components/cable_modem_monitor/core/hnap_json_builder.py:113-157 | the batch body has one key per distinct action, no key twice, each mapped to an empty object |
| HnapJsonBuilder.ActionObjectsKeys | custom_components/cable_modem_monitor/core/hnap_json_builder.py:113-157 | the batch body's keys are exactly the actions |
| HnapJsonBuilder.ActionObjectsDistinct | custom_components/cable_modem_monitor/core/hnap_json_builder.py:113-157 | no action key occurs twice |
| HnapJsonBuilder.ActionObjectsLookup | custom_components/cable_modem_monitor/core/hnap_json_builder.py:113-157 | every action maps to an empty object |
| HnapJsonBuilder.ReadChallenge | custom_components/cable_modem_monitor/core/hnap_json_builder.py:222-236 | an accepted challenge has a non-empty challenge, a non-empty public key and a truthy cookie |
| HnapJsonBuilder.CallOutcome | custom_components/cable_modem_monitor/core/hnap_json_builder.py:79-157 | a call returns the response text exactly when the reply is not a 4xx/5xx; those raise HTTPError, and transport exceptions propagate |
| HnapJsonBuilder.HnapJsonRequestBuilder.constructor | custom_components/cable_modem_monitor/core/hnap_json_builder.py:47-57 | a new builder holds its endpoint and namespace and no private key |
| HnapJsonBuilder.HnapJsonRequestBuilder.GetHnapAuth | custom_components/cable_modem_monitor/core/hnap_json_builder.py:59-77 | reads the clock once and signs with the stored key, or "withoutloginkey" |
| HnapJsonBuilder.HnapJsonRequestBuilder.CallSingle | custom_components/cable_modem_monitor/core/hnap_json_builder.py:79-111 | posts exactly one signed request with `{action: params or {}}` and returns the call's outcome; the cookies and key are unchanged |
| HnapJsonBuilder.HnapJsonRequestBuilder.CallMultiple | custom_components/cable_modem_monitor/core/hnap_json_builder.py:113-157 | posts one GetMultipleHNAPs request holding every action and returns the call's outcome |
| HnapJsonBuilder.HnapJsonRequestBuilder.Login | custom_components/cable_modem_monitor/core/hnap_json_builder.py:159-334 | the session, clock, stored key and result are those of the login run on the device's replies |
| HnapJsonBuilder.HnapJsonRequestBuilder.ReadChallengeReply | custom_components/cable_modem_monitor/core/hnap_json_builder.py:207-236 | reading the challenge reply and, if it is accepted, answering it leaves the state the login run describes |
| HnapJsonBuilder.HnapJsonRequestBuilder.CompleteLogin | custom_components/cable_modem_monitor/core/hnap_json_builder.py:238-321 | storing the derived key, setting uid and sending the login request leaves the state the login run describes |
| HnapJsonBuilder.LoginKeyOutcome | custom_components/cable_modem_monitor/core/hnap_json_builder.py:244-334 | success leaves an uppercase-hex key stored after two requests; failure leaves no key, or the old key when the challenge step returned early; uid is set exactly when two requests went out |
| HnapJsonBuilder.ChallengeRepliedOutcome | custom_components/cable_modem_monitor/core/hnap_json_builder.py:207-334 | after the challenge at most one more request goes out, exactly when uid is set |
| HnapJsonBuilder.LoginSuccessIff | custom_components/cable_modem_monitor/core/hnap_json_builder.py:184-321 | login succeeds exactly when the challenge reply is an accepted 200 and the login reply is a 200 whose LoginResult is "OK" or "SUCCESS", or whose body is not JSON |
| HnapJsonBuilder.LoginRequests | custom_components/cable_modem_monitor/core/hnap_json_builder.py:184-277 | the first request is signed with the previous key; the second with the new private key, carrying HMAC(HMAC(PublicKey+password, Challenge), Challenge) |
| HnapJsonBuilder.ChallengeRejectedKeepsKey | custom_components/cable_modem_monitor/core/hnap_json_builder.py:207-236 | a challenge reply that is not 200, not JSON, or lacks a truthy Challenge, Cookie or PublicKey fails with the reply's text, keeps the key stored before, sets no uid and sends no second request |
| HnapJsonBuilder.LoginSuccessStoresDerivedKey | custom_components/cable_modem_monitor/core/hnap_json_builder.py:244-247 | a successful login implies an accepted challenge and a stored key equal to HMAC_MD5(PublicKey + password, Challenge) of that challenge |
| HnapJsonBuilder.FailureClearsKey | custom_components/cable_modem_monitor/core/hnap_json_builder.py:285-334 | a first request that raises, a challenge whose fields crash the reading, any failed login after an accepted challenge, and a second request that raises all leave no key stored; the raising cases return (False, "") |
| HnapJsonBuilder.TransportFailureClearsKey | custom_components/cable_modem_monitor/core/hnap_json_builder.py:323-334 | a challenge request that raises clears the stored key and returns (False, "") after one request |
| Mb8600Hnap.CanParseIff | custom_components/cable_modem_monitor/parsers/motorola/mb8600_hnap.py:55-62 | detection is by "MB8600" or "MB 8600" alone; the HNAP clause adds nothing |
| Mb8600Hnap.StripTrailingSlashes | custom_components/cable_modem_monitor/parsers/motorola/mb8600_hnap.py:92 | the result is a prefix of the URL without a trailing `/`, and only slashes were removed |
| Mb8600Hnap.SoapResult | custom_components/cable_modem_monitor/parsers/motorola/mb8600_hnap.py:105-108 | transport exceptions propagate, 4xx/5xx raise HTTPError, success yields the `<action>Response` member |
| Mb8600Hnap.SoapExchange | custom_components/cable_modem_monitor/parsers/motorola/mb8600_hnap.py:70-108 | one request is posted when the key is text, none otherwise |
| Mb8600Hnap.SendSoapAction | custom_components/cable_modem_monitor/parsers/motorola/mb8600_hnap.py:70-108 | reads the clock once, posts what the exchange posts, consumes that many replies, and leaves cookies unchanged |
| Mb8600Hnap.Login | custom_components/cable_modem_monitor/parsers/motorola/mb8600_hnap.py:110-178 | the session, clock and result are those of the login run on the device's replies |
| Mb8600Hnap.ReadChallenge | custom_components/cable_modem_monitor/parsers/motorola/mb8600_hnap.py:122-178 | after the first call, gives up with its exception message or answers the challenge, as the run describes |
| Mb8600Hnap.CompleteLogin | custom_components/cable_modem_monitor/parsers/motorola/mb8600_hnap.py:132-174 | sets uid and PrivateKey and answers the challenge, as the run describes |
| Mb8600Hnap.SendAnswer | custom_components/cable_modem_monitor/parsers/motorola/mb8600_hnap.py:149-174 | stores the PrivateKey cookie, sends the login password and reads LoginResult, as the run describes |
| Mb8600Hnap.ChallengeStepOutcome | custom_components/cable_modem_monitor/parsers/motorola/mb8600_hnap.py:132-178 | a second request goes out exactly when PublicKey is truthy and Challenge is a non-empty string; success exactly when LoginResult is accepted; PrivateKey then holds the derived key; only uid and PrivateKey change |
| Mb8600Hnap.ChallengeStepDetails | custom_components/cable_modem_monitor/parsers/motorola/mb8600_hnap.py:132-143 | uid is set to a truthy Cookie and otherwise kept as it was; a falsy PublicKey or Challenge fails with "Missing authentication parameters" and sends nothing |
| Mb8600Hnap.ChallengeStepAnswer | custom_components/cable_modem_monitor/parsers/motorola/mb8600_hnap.py:145-164 | a usable challenge sends exactly one Login request, signed with the derived private key, whose LoginPassword is HMAC_MD5(private key, Challenge) |
| Mb8600Hnap.AnswerChallengeOutcome | custom_components/cable_modem_monitor/parsers/motorola/mb8600_hnap.py:149-178 | the answer is one request; success exactly when its LoginResult is "OK" or "success"; the jar gains the key |
| Mb8600Hnap.LoginOutcome | custom_components/cable_modem_monitor/parsers/motorola/mb8600_hnap.py:110-178 | a login sends one or two requests; success needs both and leaves an uppercase-hex PrivateKey; an existing PrivateKey is never removed |
| Mb8600Hnap.SuccessSpellings | custom_components/cable_modem_monitor/parsers/motorola/mb8600_hnap.py:169 | "OK" and "success" are accepted and "SUCCESS" is not, unlike the JSON builder |
| Mb8600Hnap.AuthFailureIgnoresCase | custom_components/cable_modem_monitor/parsers/motorola/mb8600_hnap.py:180-207 | detection ignores ASCII letter case |
| Mb8600Hnap.HttpAuthStatusDetected | custom_components/cable_modem_monitor/parsers/motorola/mb8600_hnap.py:180-207 | the HTTPError of a 401 or 403 reply is recognised as an authentication failure |
| Mb8600Hnap.Truncated | custom_components/cable_modem_monitor/parsers/motorola/mb8600_hnap.py:240 | at most 200 characters, a prefix of the message, and the whole message when it is short |
| Mb8600Hnap.RecoverParse | custom_components/cable_modem_monitor/parsers/motorola/mb8600_hnap.py:226-245 | empty channels and info; the failure flags and diagnostic context appear exactly when the error is an authentication failure, with the truncated message |
| Mb8600Hnap.InfiniteStepAborts | custom_components/cable_modem_monitor/parsers/motorola/mb8600_hnap.py:339 | an infinite frequency raises OverflowError, which ends the table |
| Mb8600Hnap.Collect | custom_components/cable_modem_monitor/parsers/motorola/mb8600_hnap.py:322-364 | a table has no more channels than rows |
| Mb8600Hnap.CollectAppend | custom_components/cable_modem_monitor/parsers/motorola/mb8600_hnap.py:322-364 | the channels of two runs of rows are those of each, in order |
| Mb8600Hnap.CollectKept | custom_components/cable_modem_monitor/parsers/motorola/mb8600_hnap.py:322-364 | every channel comes from a kept row; without an ending row every kept row is a channel |
| Mb8600Hnap.DecodeAll | custom_components/cable_modem_monitor/parsers/motorola/mb8600_hnap.py:322-361 | one decoded row per entry, in order |
| Mb8600Hnap.DecodeAllAppend | custom_components/cable_modem_monitor/parsers/motorola/mb8600_hnap.py:322-361 | decoding distributes over concatenation |
| Mb8600Hnap.DecodeRows | custom_components/cable_modem_monitor/parsers/motorola/mb8600_hnap.py:322-364 | the row loop returns the collected channels of the decoded entries |
| Mb8600Hnap.ParseDownstream | custom_components/cable_modem_monitor/parsers/motorola/mb8600_hnap.py:295-366 | returns the downstream channels of the data: the kept rows of the entries of the channel string, in order, up to a row that ends the table; what a kept row holds is stated by DownstreamFieldsOutcome below |
| Mb8600Hnap.ParseUpstream | custom_components/cable_modem_monitor/parsers/motorola/mb8600_hnap.py:368-435 | returns the upstream channels of the data, as ParseDownstream does; what a kept row holds is stated by UpstreamFieldsOutcome below |
| Mb8600Hnap.FrequencyHzFinite | custom_components/cable_modem_monitor/parsers/motorola/mb8600_hnap.py:339 | `int(round(mhz * 1_000_000))` succeeds exactly on a finite float and is then within half a hertz of the exact product; an infinity raises OverflowError and NaN ValueError |
| Mb8600Hnap.DownstreamFieldsOutcome | custom_components/cable_modem_monitor/parsers/motorola/mb8600_hnap.py:333-361 | a downstream row with nine fields is kept exactly when fields 0, 3, 7 and 8 convert with `int`, fields 4 to 6 with `float` and the frequency is finite; it ends the table exactly when the ids convert and the frequency is infinite; a kept channel holds `int` of fields 0, 3, 7 and 8, the stripped fields 1 and 2, `float` of fields 5 and 6, and the frequency in hertz to within half a hertz |
| Mb8600Hnap.UpstreamFieldsOutcome | custom_components/cable_modem_monitor/parsers/motorola/mb8600_hnap.py:406-430 | an upstream row with seven fields is kept exactly when fields 0, 3 and 4 convert with `int`, fields 5 and 6 with `float` and the frequency is finite; it ends the table exactly when the ids convert and the frequency is infinite; a kept channel holds `int` of fields 0, 3 and 4, the stripped fields 1 and 2, `float` of field 6, and the frequency in hertz to within half a hertz |
| Mb8600Hnap.DownstreamBadNumberSkipped | custom_components/cable_modem_monitor/parsers/motorola/mb8600_hnap.py:333-361 | a downstream row with nine fields whose id, frequency, power, SNR or codeword count fails to convert, or whose frequency is NaN, is skipped |
| Mb8600Hnap.UpstreamBadNumberSkipped | custom_components/cable_modem_monitor/parsers/motorola/mb8600_hnap.py:406-430 | an upstream row with seven fields whose id, symbol rate, frequency or power fails to convert, or whose frequency is NaN, is skipped |
| Mb8600Hnap.EmptyChannelDataNoRows | custom_components/cable_modem_monitor/parsers/motorola/mb8600_hnap.py:304-317 | a missing response, or a response whose channel string is missing or empty, gives no channels, for both tables |
| Mb8600HnapExamples.DownstreamJoined | custom_components/cable_modem_monitor/parsers/motorola/mb8600_hnap.py:322-331 | a downstream row joined with carets from caret-free fields, the first starting with a visible character, decodes as those fields |
| Mb8600HnapExamples.UpstreamJoined | custom_components/cable_modem_monitor/parsers/motorola/mb8600_hnap.py:395-404 | an upstream row joined with carets from caret-free fields, the first starting with a visible character, decodes as those fields |
| Mb8600HnapExamples.DownstreamKept | custom_components/cable_modem_monitor/parsers/motorola/mb8600_hnap.py:333-357 | downstream fields that each convert to the value held by a channel are kept as that channel |
| Mb8600HnapExamples.UpstreamKept | custom_components/cable_modem_monitor/parsers/motorola/mb8600_hnap.py:406-426 | upstream fields that each convert to the value held by a channel are kept as that channel |
| Mb8600HnapExamples.DownstreamRowExample | custom_components/cable_modem_monitor/parsers/motorola/mb8600_hnap.py:299-300 | the documented row "1^Locked^QAM256^20^543.0^ 1.4^45.1^41^0^" is kept as channel 1, "Locked", "QAM256", ch_id 20, 543000000 Hz, power 1.4, SNR 45.1, 41 corrected and 0 uncorrected |
| Mb8600HnapExamples.UpstreamRowExample | custom_components/cable_modem_monitor/parsers/motorola/mb8600_hnap.py:372-373 | the documented row "1^Locked^SC-QAM^17^5120^16.4^44.3^" is kept as channel 1, "Locked", "SC-QAM", ch_id 17, symbol rate 5120, 16400000 Hz, power 44.3 |
| Mb8600Hnap.SkippedRowOmitted | custom_components/cable_modem_monitor/parsers/motorola/mb8600_hnap.py:322-361 | a skipped row is dropped and the rows around it kept, in order |
| Mb8600Hnap.AbortingRowEndsTable | custom_components/cable_modem_monitor/parsers/motorola/mb8600_hnap.py:322-364 | a row that ends the table loses every row after it |
| Mb8600Hnap.ShortRowsSkipped | custom_components/cable_modem_monitor/parsers/motorola/mb8600_hnap.py:323-331 | blank rows, and rows with under nine (downstream) or seven (upstream) fields, are skipped |
| Mb8600Hnap.InfiniteFieldAborts | custom_components/cable_modem_monitor/parsers/motorola/mb8600_hnap.py:333-364 | nine fields with integer ids and an infinite frequency end the downstream table |
| Mb8600Hnap.InfiniteFrequencyAborts | custom_components/cable_modem_monitor/parsers/motorola/mb8600_hnap.py:322-364 | a row whose frequency reads as infinity ends the downstream table |
| Mb8600Hnap.SetIfPresent | custom_components/cable_modem_monitor/parsers/motorola/mb8600_hnap.py:470-474 | a truthy source value is stored under the target key; otherwise the target is unchanged; no other key changes |
| Mb8600Hnap.SetIfPresentWellFormed | custom_components/cable_modem_monitor/parsers/motorola/mb8600_hnap.py:470-474 | a well-formed info dictionary stays well-formed |
| Mb8600Hnap.ConnectionInfoShape | custom_components/cable_modem_monitor/parsers/motorola/mb8600_hnap.py:449-456 | the connection step gives well-formed info whose uptime is the reported one |
| Mb8600Hnap.StartupInfoShape | custom_components/cable_modem_monitor/parsers/motorola/mb8600_hnap.py:458-468 | the startup step keeps the info well-formed and the uptime as it was |
| Mb8600Hnap.SystemInfoShape | custom_components/cable_modem_monitor/parsers/motorola/mb8600_hnap.py:437-468 | only the seven mapped keys, each once, none falsy; the uptime is MotoConnSystemUpTime exactly when that is truthy in a dict response |
| Mb8600Hnap.Fetch | custom_components/cable_modem_monitor/parsers/motorola/mb8600_hnap.py:265-273 | one outcome per action |
| Mb8600Hnap.ResponseNames | custom_components/cable_modem_monitor/parsers/motorola/mb8600_hnap.py:269-273 | one response name per action |
| Mb8600Hnap.FetchStep | custom_components/cable_modem_monitor/parsers/motorola/mb8600_hnap.py:265-273 | the fetch after one more action extends the previous trace by that call |
| Mb8600Hnap.HnapDataStep | custom_components/cable_modem_monitor/parsers/motorola/mb8600_hnap.py:269-273 | one more call files one more `<action>Response` entry |
| Mb8600Hnap.FetchLoopStep | custom_components/cable_modem_monitor/parsers/motorola/mb8600_hnap.py:265-273 | one loop pass extends the trace, the data and the consumed replies consistently |
| Mb8600Hnap.FetchedStep | custom_components/cable_modem_monitor/parsers/motorola/mb8600_hnap.py:265-273 | the loop invariant holds after one more action |
| Mb8600Hnap.FetchOne | custom_components/cable_modem_monitor/parsers/motorola/mb8600_hnap.py:266-273 | one pass calls the next action and files its result or `{}`; cookies unchanged |
| Mb8600Hnap.FileCall | custom_components/cable_modem_monitor/parsers/motorola/mb8600_hnap.py:266-273 | calls an action and files what the call gave |
| Mb8600Hnap.FetchAll | custom_components/cable_modem_monitor/parsers/motorola/mb8600_hnap.py:263-273 | the loop's data, requests and consumed replies are those of the fetch |
| Mb8600Hnap.ParseWithHnap | custom_components/cable_modem_monitor/parsers/motorola/mb8600_hnap.py:247-293 | the five actions are called with the PrivateKey cookie (or "withoutloginkey"), one clock reading each; the result is decoded from the data they filed; cookies unchanged |
| Mb8600Hnap.Parse | custom_components/cable_modem_monitor/parsers/motorola/mb8600_hnap.py:209-245 | a missing session or URL raises ValueError and touches nothing (no request, no reply consumed, no cookie changed, no clock reading); otherwise returns the result of `_parse_with_hnap`, with its requests, consumed replies, unchanged cookies and one clock reading per action |
| Mb8600Hnap.HnapDataKeys | custom_components/cable_modem_monitor/parsers/motorola/mb8600_hnap.py:263-273 | the data has one `<action>Response` key per action, in order, whatever the device answers |
| Mb8600Hnap.ParsedDataKeys | custom_components/cable_modem_monitor/parsers/motorola/mb8600_hnap.py:255-273 | the data has exactly the five response keys, distinct, in call order |
| Mb8600Hnap.EmptyFilings | custom_components/cable_modem_monitor/parsers/motorola/mb8600_hnap.py:270-273 | calls that all raise leave every entry `{}` |
| Mb8600Hnap.UnusableKeyPostsNothing | custom_components/cable_modem_monitor/parsers/motorola/mb8600_hnap.py:252-273 | with a key that is not text every call raises before posting |
| Mb8600Hnap.UnusableKeyFetchesNothing | custom_components/cable_modem_monitor/parsers/motorola/mb8600_hnap.py:247-293 | then parsing posts nothing and reports no channels and no info |
| Http.StatusError | custom_components/cable_modem_monitor/parsers/motorola/mb8600_hnap.py:105 | raise_for_status raises exactly for 4xx/5xx, with the status code at the front of the message |
| Http.DecodeBody | custom_components/cable_modem_monitor/parsers/motorola/mb8600_hnap.py:107 | a body that is not JSON raises JSONDecodeError; otherwise the decoded value |
| PyNumbers.RoundHalfEven | custom_components/cable_modem_monitor/parsers/motorola/mb8600_hnap.py:339 | `round` gives the nearest integer, ties to even |
| PyNumbers.Truncate | custom_components/cable_modem_monitor/core/hnap_json_builder.py:72 | `int()` on a float drops the fraction toward zero |
| PyNumbers.ExponentMarker | custom_components/cable_modem_monitor/parsers/motorola/mb8600_hnap.py:339-341 | the found exponent marker is an `e` or `E` inside the text |
| PyNumbers.ParseIntText | custom_components/cable_modem_monitor/parsers/motorola/mb8600_hnap.py:335-343 | `int(str(i)) == i` for every integer |
| PyNumbers.SignedDigits | custom_components/cable_modem_monitor/parsers/motorola/mb8600_hnap.py:335-343 | a plain or minus-signed digit run reads as its value |
| PyNumbers.GroupValueDecimal | custom_components/cable_modem_monitor/parsers/motorola/mb8600_hnap.py:335-343 | reading back a decimal rendering gives the number |
| PyNumbers.ParseFloatInt | custom_components/cable_modem_monitor/parsers/motorola/mb8600_hnap.py:339-341 | a decimal integer literal reads as that float |
| PyNumbers.ParseFloatDecimal | custom_components/cable_modem_monitor/parsers/motorola/mb8600_hnap.py:339-341 | a decimal literal `whole.fraction` reads as the finite float whole + fraction / 10^(digits of fraction) |
| PyJson.SetItemKeys | custom_components/cable_modem_monitor/parsers/motorola/mb8600_hnap.py:269-273 | assignment keeps key order and appends a new key |
| PyJson.SetItemLookup | custom_components/cable_modem_monitor/parsers/motorola/mb8600_hnap.py:474 | after assignment the key maps to the new value |
| PyJson.SetItemOthers | custom_components/cable_modem_monitor/parsers/motorola/mb8600_hnap.py:474 | assignment leaves every other key alone |
| PyJson.SetItemDistinct | custom_components/cable_modem_monitor/parsers/motorola/mb8600_hnap.py:269-273 | assignment never duplicates a key |
| Text.JoinSplit | scripts/utils/sanitizer.py:218-227 | joining the `&`-split parts gives back the text |
| Text.SplitJoin | scripts/utils/sanitizer.py:218-227 | splitting a join of at least one separator-free part gives back the parts |

## Left out

- Logging (`_LOGGER` calls) has no effect on any result and is not modelled.
- The filesystem and the import machinery: the installed parser package is a value (directories, modules, whether each imports, their attributes). `pkgutil` and `importlib` are not part of this model.
- The concrete set of installed parsers: the registry is proved for every package contents; only the MB7621 and MB8600 HNAP descriptors are given concretely.
- `list.sort` is modelled as a stable insertion sort; the proofs are about its result (sorted, a permutation, stable), not Timsort's steps.
- MotorolaGenericParser is not part of this model: the MB7621 descriptor takes `auth_type` and `auth_config` from the base class defaults instead of that intermediate class.
- MD5 itself: the digest is a parameter, any function from key and message to 32 lowercase hex digits, and every property is proved for all such functions.
- The device's replies and the wall clock are inputs (a scripted reply list and a list of readings); a POST after the scripted replies run out raises ConnectionError.
- Floating point: a finite float is an exact real, so binary rounding of parsed values is not modelled.
- PyNumbers.ParseFloat, PyNumbers.ScaleNum and Mb8600Hnap.FrequencyHz do not model overflow to infinity: a literal such as "1e400", or a product beyond the largest double, stays finite, so the OverflowError that `round` raises on an infinite frequency, and the end of the channel table that follows it, are not modelled. Literal "inf" and "nan" spellings are modelled.
- Http.Session.Post does not model cookies the server sets through Set-Cookie; the jar changes only by the client's own assignments, so every contract that says cookies are unchanged or only uid and PrivateKey change (CallSingle, SendSoapAction, FetchOne, ParseWithHnap, ChallengeStepOutcome, LoginOutcome) speaks of client-set cookies only.
- PyJson.Json has no float case (the modelled replies carry only strings, integers, booleans, null, lists and objects), and PyJson.Repr writes strings between single quotes without Python's escaping or its switch to double quotes.
- Case folding is ASCII only; Unicode case mapping is not modelled.
- PyNumbers.ParseInt / PyNumbers.ParseFloat: ASCII digits only; Python's `int` and `float` also accept the other Unicode decimal digits (Arabic-Indic, full-width and so on), which the model rejects, and the 4300-digit `int` limit of Python 3.11 and later (a ValueError for longer decimal text) is not modelled.
- PyJson.Lookup returns the first member with a key, whereas `json.loads` keeps the last value of a key repeated in one object; the modem's replies are taken to name each key once, so the two agree on them.
- Mb8600HnapExamples.DownstreamRowExample and Mb8600HnapExamples.UpstreamRowExample state each documented row as the caret-join of its fields (DownstreamSample, UpstreamSample), not as one string literal.
- Updates of dicts and lists in place (`hnap_data[...] = ...`, `target[key] = value`, the sanitizer's in-place edits of HAR entries) are modelled as returned values; aliasing between those objects is not modelled.
- `sanitize_html` (the HTML redaction chain) and `json.loads`/`json.dumps` are parameters of the sanitizer, so their redactions are not modelled.
- `sanitize_har_file`'s file reading and writing is left out; only its output path is modelled.
- Sanitizer.JsonTextSanitized, SanitizePostData, SanitizeRequest, SanitizeContent and SanitizeResponse are modelled as functions; beyond key preservation (SanitizeEntryKeys, SanitizeHarShape) only the pass-through cases of SanitizePostData (SanitizePostDataUntouched) are proved separately.
- Mb8600Hnap.RecoverParse: every exception raised by a status fetch is caught inside `_parse_with_hnap`, and every decoding step catches its own, so in the model the `except` branch of `parse` is never reached; it is modelled and proved as a function of the error instead.
- Mb8600Hnap.Login and HnapJsonBuilder.HnapJsonRequestBuilder.Login do not model the request timeout.
- The `soup` and `url` arguments of `can_parse` and `parse` are unused by the modelled parsers and not modelled.
