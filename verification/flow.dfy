/**
 Properties that relate several handler calls: the captcha -> SMS code ->
 registration flow, the independence of cache entries, and what happens
 when a registration is repeated.
 */
module Flow {
  import opened Wrappers
  import opened Text
  import opened Decimal
  import opened Pattern
  import opened Cache
  import opened Store
  import opened Passport

  /** Captchas under different ids are independent entries; the same id is overwritten. */
  lemma ImageCodesIndependent(id1: string, id2: string, t1: string, t2: string, cache: Entries)
    requires id1 != "" && id2 != ""
    ensures
      var c1 := GetImageCode(Some(id1), t1, cache, false).cache;
      var c2 := GetImageCode(Some(id2), t2, c1, false).cache;
      && ImageKey(id1) in c2 && c2[ImageKey(id2)] == t2
      && (id1 != id2 ==> c2[ImageKey(id1)] == t1)
      && (id1 == id2 ==> c2[ImageKey(id1)] == t2)
  {
    ImageKeyInjective(id1, id2);
  }

  /** Staging a captcha leaves every staged SMS code as it was. */
  lemma ImageCodeKeepsSmsCodes(id: Option<string>, text: string, cache: Entries, writeFails: bool, mobile: string)
    requires SmsKey(mobile) in cache
    ensures
      var out := GetImageCode(id, text, cache, writeFails);
      SmsKey(mobile) in out.cache && out.cache[SmsKey(mobile)] == cache[SmsKey(mobile)]
  {
    if id.Some? {
      NamespacesDisjoint(id.value, mobile);
    }
  }

  /** Sending an SMS code leaves every staged captcha as it was. */
  lemma SmsCodeKeepsImageCodes(req: SmsRequest, cache: Entries, faults: CacheFaults, rand: nat, gateway: int, id: string)
    requires rand <= 999999
    requires ImageKey(id) in cache
    ensures
      var out := SendSmsCode(req, cache, faults, rand, gateway);
      ImageKey(id) in out.cache && out.cache[ImageKey(id)] == cache[ImageKey(id)]
  {
    if req.mobile.Some? {
      NamespacesDisjoint(id, req.mobile.value);
    }
  }

  /** The SMS handler answers the same whatever the letter case of the captcha code typed. */
  lemma CaptchaCaseIgnored(req: SmsRequest, typed: string, cache: Entries, faults: CacheFaults, rand: nat, gateway: int)
    requires rand <= 999999
    requires req.imageCode.Some? && SameIgnoringCase(req.imageCode.value, typed)
    ensures SendSmsCode(req, cache, faults, rand, gateway)
         == SendSmsCode(req.(imageCode := Some(typed)), cache, faults, rand, gateway)
  {
    UpperEqualIff(req.imageCode.value, typed);
  }

  /**
   The captcha is compared up to case, the SMS code exactly: the same
   case-changed text passes the first comparison and fails the second.
   The staged SMS code here is chosen to contain letters, which the SMS
   handler itself never stages (its codes are six digits, see IsSmsCode),
   so this is not a reachable flow. For the digit codes it does stage the
   two comparisons coincide (Text.DigitsIgnoringCaseAreEqual), and the
   exactness of the registration comparison cannot be observed.
   */
  lemma OnlyCaptchaIgnoresCase()
    ensures
      var mobile := "13812345678";
      var cache := map[SmsKey(mobile) := "a1b2c3", ImageKey("x") := "a1b2c3"];
      && SendSmsCode(SmsRequest(Some(mobile), Some("A1B2C3"), Some("x")), cache, CacheFaults(false, false), 42, 0).ret == OK
      && Register(RegisterRequest(Some(mobile), Some("A1B2C3"), Some("pw")), cache, false, [], false, 1, 0).ret == DATAERR
  {
    var mobile := "13812345678";
    var cache := map[SmsKey(mobile) := "a1b2c3", ImageKey("x") := "a1b2c3"];
    assert MobileShape(mobile);
    NamespacesDisjoint("x", mobile);
    assert Holds(cache, ImageKey("x")) && cache[ImageKey("x")] == "a1b2c3";
    assert SameIgnoringCase("a1b2c3", "A1B2C3") by {
      assert forall i :: 0 <= i < 6 ==> SameLetter("a1b2c3"[i], "A1B2C3"[i]);
    }
    assert CaptchaPassed(SmsRequest(Some(mobile), Some("A1B2C3"), Some("x")), cache, CacheFaults(false, false));
    assert Holds(cache, SmsKey(mobile)) && cache[SmsKey(mobile)] != "A1B2C3";
  }

  /** A staged code "123456" registers the number with "123456" and refuses "654321". */
  lemma StagedCodeScenario(mobile: string, users: seq<User>, newId: nat, now: int)
    requires MobileShape(mobile) && !IdTaken(users, newId) && !MobileTaken(users, mobile)
    ensures
      var cache := Stage(map[], SmsKey(mobile), "123456");
      var right := Register(RegisterRequest(Some(mobile), Some("123456"), Some("pw")), cache, false, users, false, newId, now);
      var wrong := Register(RegisterRequest(Some(mobile), Some("654321"), Some("pw")), cache, false, users, false, newId, now);
      && right.ret == OK && right.users == users + [User(newId, mobile, mobile, now)]
      && wrong.ret == DATAERR && wrong.users == users
  {
    var cache := Stage(map[], SmsKey(mobile), "123456");
    var right := Register(RegisterRequest(Some(mobile), Some("123456"), Some("pw")), cache, false, users, false, newId, now);
    assert right.users == right.users[..|users|] + [right.users[|users|]];
  }

  /**
   The whole flow: a captcha staged under an id, the SMS handler given that
   id and the captcha text in any letter case, then registration with the
   code that was staged, adds exactly one user for the number.
   */
  lemma EndToEnd(id: string, text: string, typed: string, mobile: string, password: string,
                 cache: Entries, rand: nat, users: seq<User>, newId: nat, now: int)
    requires id != "" && text != "" && SameIgnoringCase(typed, text)
    requires MobileShape(mobile) && password != ""
    requires rand <= 999999
    requires !IdTaken(users, newId) && !MobileTaken(users, mobile)
    ensures
      var img := GetImageCode(Some(id), text, cache, false);
      var sms := SendSmsCode(SmsRequest(Some(mobile), Some(typed), Some(id)), img.cache, CacheFaults(false, false), rand, 0);
      && img.reply == Jpeg
      && sms.ret == OK
      && SmsKey(mobile) in sms.cache
      && IsSmsCode(sms.cache[SmsKey(mobile)], rand)
      && var reg := Register(RegisterRequest(Some(mobile), Some(sms.cache[SmsKey(mobile)]), Some(password)),
                             sms.cache, false, users, false, newId, now);
         && reg.ret == OK
         && reg.users == users + [User(newId, mobile, mobile, now)]
         && reg.session == Some(Session(newId, mobile, mobile))
  {
    var img := GetImageCode(Some(id), text, cache, false);
    SameIgnoringCaseIsEquivalence(typed, text, text);
    var sms := SendSmsCode(SmsRequest(Some(mobile), Some(typed), Some(id)), img.cache, CacheFaults(false, false), rand, 0);
    var code := sms.cache[SmsKey(mobile)];
    var reg := Register(RegisterRequest(Some(mobile), Some(code), Some(password)), sms.cache, false, users, false, newId, now);
    assert reg.users == reg.users[..|users|] + [reg.users[|users|]];
  }

  /**
   The staged SMS code is read but not consumed, so a repeated registration
   passes the comparison again; the unique mobile number is what refuses it,
   and the table is left as the first registration made it.
   */
  lemma RepeatedRegistrationRefused(req: RegisterRequest, cache: Entries, users: seq<User>,
                                    newId: nat, now: int, nextId: nat, later: int)
    requires Register(req, cache, false, users, false, newId, now).ret == OK
    ensures
      var first := Register(req, cache, false, users, false, newId, now);
      var again := Register(req, cache, false, first.users, false, nextId, later);
      && again.ret == DBERR && again.users == first.users && again.session == None
  {
    var first := Register(req, cache, false, users, false, newId, now);
    assert first.users[|users|].mobile == req.mobile.value;
    assert MobileTaken(first.users, req.mobile.value);
  }

  /** Registration keeps ids and mobile numbers unique in the table. */
  lemma RegisterKeepsUniqueKeys(req: RegisterRequest, cache: Entries, readFails: bool, users: seq<User>,
                                commitFails: bool, newId: nat, now: int)
    requires UniqueKeys(users)
    ensures UniqueKeys(Register(req, cache, readFails, users, commitFails, newId, now).users)
  {
    var out := Register(req, cache, readFails, users, commitFails, newId, now);
    if out.ret == OK {
      var u := NewUser(req.mobile.value, newId, now);
      CommitKeepsUniqueKeys(users, u, commitFails);
      assert out.users == Commit(users, u, commitFails).value;
    }
  }
}
