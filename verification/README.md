# Passport handlers of the news site, modelled in Dafny

This project models the passport blueprint of the Flask news site
(`Example/newsflask/info/modules/passport/views.py`). The blueprint has three
request handlers:

- `get_image_code` (GET /image_code) stages the text of a freshly drawn captcha in the cache under `"ImageCodeId_" + id`.
- `send_sms_code` (POST /sms_code) checks the mobile number and the captcha the client typed. It then sends a six-digit code by SMS and stages that code under `"SMS_" + mobile`.
- `register` (POST /register) checks the staged SMS code and adds one user row. It then writes the user into the session.

Each handler is a pure function. It takes the request fields (`Option<string>`, where `None` is a missing JSON field) and the state of its collaborators:

- the cache, as a `map<string, string>`, plus flags saying whether a read or a write raises;
- the user table, as a `seq<User>`, plus a flag for a database failure;
- the random draw, the gateway's return value, the captcha text, the new row's id and the clock, as plain parameters.

Each handler returns the reply, the new cache or table, and the calls it made on the collaborators, in order. That call trace is what lets the contracts say that a rejected request read nothing, and that an SMS code is staged only after it was sent.

Files and modules:

- `wrappers.dfy` (`Wrappers`): `Option`.
- `text.dfy` (`Text`): ASCII digits, `str.upper`, and comparison up to letter case.
- `decimal.dfy` (`Decimal`): `"%d"`, `"%06d"`, and the value of a digit string.
- `pattern.dfy` (`Pattern`): a small model of `re.match` for fixed-count patterns, and the mobile pattern `1[35678]\d{9}`.
- `cache.dfy` (`Cache`): the namespaced keys, Python truthiness of a read, and staging a value.
- `store.dfy` (`Store`): the user row, the session, and commit or rollback under the table's unique keys.
- `passport.dfy` (`Passport`): the three handlers.
- `flow.dfy` (`Flow`): properties that relate several handler calls.

Three points of the code shape the model:

- The pattern has no `$`, so `re.match` accepts any string whose first eleven characters match, such as `"13812345678abc"`. Its cache key is then `"SMS_13812345678abc"`.
- The password is checked for presence at line 41 but never assigned (the TODO at line 66), so the modelled user row has no password.
- `if not value` treats a staged empty string like a missing entry. Both give `NODATA`.

## Model

| member | source | states |
|---|---|---|
| Text.Upper | Example/newsflask/info/modules/passport/views.py:124 | `str.upper` keeps the length, upper-cases each character, and leaves no lower-case letter |
| Text.UpperEqualIff | Example/newsflask/info/modules/passport/views.py:124 | comparing upper-cased forms is exactly equality up to letter case, in both directions, against an independent character-by-character definition |
| Text.SameIgnoringCaseIsEquivalence | Example/newsflask/info/modules/passport/views.py:124 | the captcha comparison is reflexive, symmetric and transitive |
| Text.DigitsIgnoringCaseAreEqual | Example/newsflask/info/modules/passport/views.py:124 | for digit-only text, comparison up to case is plain equality |
| Decimal.Decimal | Example/newsflask/info/modules/passport/views.py:129 | `"%d" % n` is a non-empty digit string with no leading zero that denotes n |
| Decimal.Format06d | Example/newsflask/info/modules/passport/views.py:129 | `"%06d" % n` is all digits and denotes n; it is at least 6 long, and exactly 6 when n < 10^6 |
| Decimal.ZerosAreDigits | Example/newsflask/info/modules/passport/views.py:129 | the zero padding has the requested length and denotes 0 |
| Decimal.ZerosDoNotCount | Example/newsflask/info/modules/passport/views.py:129 | left zero padding does not change the value of a digit string |
| Decimal.DecimalLength | Example/newsflask/info/modules/passport/views.py:129 | a number below 10^k prints in at most k digits, so no draw of randint(0, 999999) overflows the width |
| Decimal.ValueBound | Example/newsflask/info/modules/passport/views.py:129 | a k-digit string denotes a number below 10^k |
| Decimal.ValueInjective | Example/newsflask/info/modules/passport/views.py:129 | equal-length digit strings that denote the same number are equal |
| Decimal.SixDigitStringsAreFormatted | Example/newsflask/info/modules/passport/views.py:129 | every six-digit string is `"%06d"` of the number it denotes, so the formatting is onto the six-digit codes |
| Decimal.Format06dInjective | Example/newsflask/info/modules/passport/views.py:129 | different draws give different code texts |
| Pattern.PieceMatches | Example/newsflask/info/modules/passport/views.py:44 | a piece `cls{n}` of a pattern consumes exactly the next n characters, each in the class |
| Pattern.MobileRegexIff | Example/newsflask/info/modules/passport/views.py:44-45 | the regex `1[35678]\d{9}` under `re.match` accepts s iff s has at least 11 characters, '1' first, one of 3/5/6/7/8 second, and digits at positions 2..10 |
| Pattern.IsMobile | Example/newsflask/info/modules/passport/views.py:113-114 | the mobile check both handlers apply accepts exactly the strings of that shape; anything else is refused |
| Pattern.OnlyFirstElevenCount | Example/newsflask/info/modules/passport/views.py:113-114 | only the first eleven characters decide the check, and anything appended to an accepted number is accepted |
| Pattern.TrailingTextAccepted | Example/newsflask/info/modules/passport/views.py:113-114 | concrete cases: a number followed by letters passes; a wrong second digit or a short number fails |
| Wrappers.Truthy | Example/newsflask/info/modules/passport/views.py:41-42 | Python truthiness of a string-or-None field, as `all([...])` (lines 41, 110) and `not` (line 162) test it: false exactly for a missing field and the empty string |
| Cache.Holds | Example/newsflask/info/modules/passport/views.py:52-53 | a cache read passes `if not real_code` (lines 52 and 121) exactly when the key is staged with a non-empty value; a missing key and an empty value are both refused |
| Cache.ImageKeyInjective | Example/newsflask/info/modules/passport/views.py:171 | different captcha ids use different cache keys |
| Cache.SmsKeyInjective | Example/newsflask/info/modules/passport/views.py:138 | different mobile numbers use different cache keys |
| Cache.NamespacesDisjoint | Example/newsflask/info/modules/passport/views.py:117 | no captcha key equals an SMS key |
| Cache.Stage | Example/newsflask/info/modules/passport/views.py:138 | a successful `set` adds or overwrites exactly one key and leaves every other entry unchanged |
| Store.Commit | Example/newsflask/info/modules/passport/views.py:69-75 | a commit appends exactly the new row after the old rows; it is rolled back, leaving the table as it was, on a database failure or a duplicate id or mobile |
| Store.CommitKeepsUniqueKeys | Example/newsflask/info/modules/passport/views.py:69-71 | a commit keeps ids and mobile numbers unique in the table |
| Passport.SendSmsCode | Example/newsflask/info/modules/passport/views.py:102-143 | PARAMERR iff a field is missing or empty or the mobile is malformed, and then no collaborator is called; the first call reads `"ImageCodeId_"+id`; NODATA iff no non-empty captcha is staged; DATAERR iff it differs beyond letter case; an SMS is sent iff the captcha matched, carrying six digits denoting the draw; THIRDERR iff the gateway then returns non-zero; DBERR iff a cache read fails or the write after a successful send fails; OK iff everything passes; the code is written only right after being sent; on every error the cache is unchanged; on OK exactly `"SMS_"+mobile` is set to the code |
| Passport.Register | Example/newsflask/info/modules/passport/views.py:35-83 | PARAMERR iff a field is missing or empty or the mobile is malformed, with no call made; the first call reads `"SMS_"+mobile`; NODATA iff no non-empty code is staged; DATAERR iff it differs from `smscode` exactly (case-sensitive); a commit is attempted iff the code matched; the cache is never written; OK iff additionally the commit goes through, and then exactly one row (mobile, nick name = mobile) is appended and the session holds its id, mobile and nick name; on every other outcome the table is as before and no session is written |
| Passport.GetImageCode | Example/newsflask/info/modules/passport/views.py:159-179 | 403 iff the id is missing or empty, with no cache call; otherwise one `set` of `"ImageCodeId_"+id` to the captcha text; 500 iff that write fails, with the cache unchanged; on success only that key changes |
| Flow.ImageCodesIndependent | Example/newsflask/info/modules/passport/views.py:171 | two captcha requests stage independent entries under different ids; a second request under the same id overwrites the text |
| Flow.ImageCodeKeepsSmsCodes | Example/newsflask/info/modules/passport/views.py:170-174 | staging a captcha never changes a staged SMS code |
| Flow.SmsCodeKeepsImageCodes | Example/newsflask/info/modules/passport/views.py:137-140 | sending an SMS code never changes a staged captcha |
| Flow.CaptchaCaseIgnored | Example/newsflask/info/modules/passport/views.py:124 | the SMS handler's whole outcome is the same for any letter-case variant of the typed captcha |
| Flow.OnlyCaptchaIgnoresCase | Example/newsflask/info/modules/passport/views.py:56 | the same case-changed text passes the captcha comparison and fails the SMS-code comparison |
| Flow.StagedCodeScenario | Example/newsflask/info/modules/passport/views.py:47-71 | with `"123456"` staged, registering with `"123456"` appends the user, and registering with `"654321"` gives DATAERR and appends nothing |
| Flow.EndToEnd | Example/newsflask/info/modules/passport/views.py:102-179 | image code, then SMS code with that id and the captcha text in any case, then registration with the staged code: every step succeeds and exactly one user with that mobile is added and logged in |
| Flow.RepeatedRegistrationRefused | Example/newsflask/info/modules/passport/views.py:47-75 | the staged code is not consumed, so a repeated registration passes the comparison; the duplicate mobile makes the commit roll back with DBERR, and the table stays as the first registration left it |
| Flow.RegisterKeepsUniqueKeys | Example/newsflask/info/modules/passport/views.py:60-75 | registration keeps ids and mobile numbers unique in the user table |

## Left out

- HTTP and Flask: request parsing, `jsonify` and the `errmsg` texts, response headers, and the session cookie are not modelled. Replies are a `Ret` value or `Jpeg` / `Abort(status)`. The session is an output value.
- Numeric `errno` values: `RET` is symbolic, because `info/utils/response_code.py` is not part of this model.
- Non-string JSON fields: every field is taken to be a string or missing. For a non-string field the source answers PARAMERR, DATAERR or DBERR, succeeds, or raises, depending on which field it is and on its value.
- A request without a JSON body is not modelled. In the source, `request.json` is then None and reading a field from it raises.
- Cache expiry: `constants.py` (the expiry times) is not part of this model. An expired entry is a key the map does not hold, and a `set` carries no TTL.
- Cache value type: Redis values are taken to be `str`, not `bytes`.
- Failed cache writes: a write that raises is assumed to leave the cache unchanged.
- External inputs: `random.randint(0, 999999)`, the SMS gateway's return value, the captcha text, `datetime.now()` and the id the database assigns are all parameters.
- SMS template: the gateway's message template, including the float `SMS_CODE_REDIS_EXPIRES / 60`, is not modelled.
- Captcha image: drawing the image and its bytes are not modelled. Only the text label is.
- The logger is not modelled.
- Passwords: password handling is not modelled, because the source leaves it as a TODO and never stores the password.
- Store.Commit: the database's own behaviour is reduced to the unique id and mobile constraints plus one failure flag. `info/models.py` is not part of this model. Other column constraints are folded into the flag.
- Text.Upper: maps only ASCII a-z. Python's `str.upper` also maps letters of other scripts, and can lengthen a string (for example 'ß' becomes "SS").
- Pattern.IsMobile: `\d` is taken as ASCII 0-9. Python's `\d` on `str` also matches other Unicode decimal digits.
