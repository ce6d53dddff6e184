/**
 The three passport request handlers: image captcha, SMS code and
 registration. Each is a pure function from the request and the state of
 its collaborators to the reply, the new state, and the calls it made on
 the collaborators, in order.
 */
module Passport {
  import opened Wrappers
  import opened Text
  import opened Decimal
  import opened Pattern
  import opened Cache
  import opened Store

  /** The error numbers of the JSON replies. */
  datatype Ret = OK | DBERR | NODATA | DATAERR | PARAMERR | THIRDERR

  /** One call on a collaborator: the cache, the SMS gateway or the database. */
  datatype Call =
    | CacheGet(key: string)
    | CacheSet(key: string, value: string)
    | SendSms(mobile: string, code: string)
    | DbCommit(user: User)
    | DbRollback

  /** Whether the cache raises on a read and on a write during one request. */
  datatype CacheFaults = CacheFaults(readFails: bool, writeFails: bool)

  /** The SMS code text for the random draw n: six ASCII digits denoting n. */
  predicate IsSmsCode(code: string, n: nat)
  {
    |code| == 6 && AllDigits(code) && ValueOf(code) == n
  }

  predicate Sends(calls: seq<Call>)
  {
    exists i :: 0 <= i < |calls| && calls[i].SendSms?
  }

  predicate Commits(calls: seq<Call>)
  {
    exists i :: 0 <= i < |calls| && calls[i].DbCommit?
  }

  predicate Writes(calls: seq<Call>)
  {
    exists i :: 0 <= i < |calls| && calls[i].CacheSet?
  }

  // ---------------------------------------------------------------- /sms_code

  datatype SmsRequest = SmsRequest(mobile: Option<string>, imageCode: Option<string>, imageCodeId: Option<string>)

  datatype SmsOutcome = SmsOutcome(ret: Ret, cache: Entries, calls: seq<Call>)

  /** All three fields given and the mobile number well formed. */
  predicate SmsParamsOk(req: SmsRequest)
  {
    Truthy(req.mobile) && Truthy(req.imageCode) && Truthy(req.imageCodeId) && MobileShape(req.mobile.value)
  }

  /** The captcha staged for the request's id is there and equals its code up to case. */
  predicate CaptchaPassed(req: SmsRequest, cache: Entries, faults: CacheFaults)
  {
    && SmsParamsOk(req)
    && !faults.readFails
    && Holds(cache, ImageKey(req.imageCodeId.value))
    && SameIgnoringCase(cache[ImageKey(req.imageCodeId.value)], req.imageCode.value)
  }

  /**
   POST /sms_code. `rand` is the draw of `random.randint(0, 999999)`,
   `gateway` the value the SMS gateway returns (0 is success).
   */
  function SendSmsCode(req: SmsRequest, cache: Entries, faults: CacheFaults, rand: nat, gateway: int): (out: SmsOutcome)
    requires rand <= 999999
    // parameter checks come first and touch no collaborator
    ensures out.ret == PARAMERR <==> !SmsParamsOk(req)
    ensures out.ret == PARAMERR ==> out.calls == []
    ensures SmsParamsOk(req) ==> |out.calls| >= 1 && out.calls[0] == CacheGet(ImageKey(req.imageCodeId.value))
    // the captcha comparison
    ensures out.ret == NODATA <==> SmsParamsOk(req) && !faults.readFails && !Holds(cache, ImageKey(req.imageCodeId.value))
    ensures out.ret == DATAERR <==>
              && SmsParamsOk(req) && !faults.readFails && Holds(cache, ImageKey(req.imageCodeId.value))
              && !SameIgnoringCase(cache[ImageKey(req.imageCodeId.value)], req.imageCode.value)
    // no text message unless the captcha matched; the message carries the six-digit code
    ensures Sends(out.calls) <==> CaptchaPassed(req, cache, faults)
    ensures forall i :: 0 <= i < |out.calls| && out.calls[i].SendSms? ==>
              out.calls[i].mobile == req.mobile.value && IsSmsCode(out.calls[i].code, rand)
    // the gateway and the cache write
    ensures out.ret == THIRDERR <==> CaptchaPassed(req, cache, faults) && gateway != 0
    ensures out.ret == DBERR <==>
              SmsParamsOk(req) && (faults.readFails || (CaptchaPassed(req, cache, faults) && gateway == 0 && faults.writeFails))
    ensures out.ret == OK <==> CaptchaPassed(req, cache, faults) && gateway == 0 && !faults.writeFails
    // the code is staged only after it was sent, under "SMS_" + mobile
    ensures forall i :: 0 <= i < |out.calls| && out.calls[i].CacheSet? ==>
              && i > 0 && out.calls[i - 1] == SendSms(req.mobile.value, out.calls[i].value)
              && out.calls[i].key == SmsKey(req.mobile.value) && gateway == 0
    // nothing is staged on an error path
    ensures out.ret != OK ==> out.cache == cache
    ensures out.ret == OK ==>
              && SmsKey(req.mobile.value) in out.cache
              && StagedOnly(cache, out.cache, SmsKey(req.mobile.value), out.cache[SmsKey(req.mobile.value)])
              && IsSmsCode(out.cache[SmsKey(req.mobile.value)], rand)
  {
    if !(Truthy(req.mobile) && Truthy(req.imageCode) && Truthy(req.imageCodeId)) then
      SmsOutcome(PARAMERR, cache, [])
    else
      var mobile, imageCode, imageCodeId := req.mobile.value, req.imageCode.value, req.imageCodeId.value;
      if !IsMobile(mobile) then
        SmsOutcome(PARAMERR, cache, [])
      else
        var key := ImageKey(imageCodeId);
        var read := [CacheGet(key)];
        if faults.readFails then
          SmsOutcome(DBERR, cache, read)
        else if !Holds(cache, key) then
          SmsOutcome(NODATA, cache, read)
        else
          UpperEqualIff(cache[key], imageCode);
          if Upper(cache[key]) != Upper(imageCode) then
            SmsOutcome(DATAERR, cache, read)
          else
            var code := Format06d(rand);
            var sent := read + [SendSms(mobile, code)];
            assert sent[1].SendSms?;
            if gateway != 0 then
              SmsOutcome(THIRDERR, cache, sent)
            else
              var staged := sent + [CacheSet(SmsKey(mobile), code)];
              assert staged[1].SendSms?;
              if faults.writeFails then
                SmsOutcome(DBERR, cache, staged)
              else
                SmsOutcome(OK, Stage(cache, SmsKey(mobile), code), staged)
  }

  // ---------------------------------------------------------------- /register

  datatype RegisterRequest = RegisterRequest(mobile: Option<string>, smscode: Option<string>, password: Option<string>)

  datatype RegisterOutcome = RegisterOutcome(ret: Ret, users: seq<User>, session: Option<Session>, calls: seq<Call>)

  /** All three fields given and the mobile number well formed. */
  predicate RegisterParamsOk(req: RegisterRequest)
  {
    Truthy(req.mobile) && Truthy(req.smscode) && Truthy(req.password) && MobileShape(req.mobile.value)
  }

  /** The SMS code staged for the mobile number is there and equals the request's code exactly. */
  predicate CodeConfirmed(req: RegisterRequest, cache: Entries, readFails: bool)
  {
    && RegisterParamsOk(req)
    && !readFails
    && Holds(cache, SmsKey(req.mobile.value))
    && cache[SmsKey(req.mobile.value)] == req.smscode.value
  }

  /** The row registration creates: the nick name defaults to the mobile number. */
  function NewUser(mobile: string, id: nat, now: int): User
  {
    User(id, mobile, mobile, now)
  }

  /**
   POST /register. `newId` is the id the database assigns to the new row,
   `now` the clock reading stored as the last login, `commitFails` a
   database failure unrelated to the table's contents.
   */
  function Register(req: RegisterRequest, cache: Entries, readFails: bool, users: seq<User>, commitFails: bool, newId: nat, now: int): (out: RegisterOutcome)
    // parameter checks come first and touch no collaborator
    ensures out.ret == PARAMERR <==> !RegisterParamsOk(req)
    ensures out.ret == PARAMERR ==> out.calls == []
    ensures RegisterParamsOk(req) ==> |out.calls| >= 1 && out.calls[0] == CacheGet(SmsKey(req.mobile.value))
    // the code comparison is exact
    ensures out.ret == NODATA <==> RegisterParamsOk(req) && !readFails && !Holds(cache, SmsKey(req.mobile.value))
    ensures out.ret == DATAERR <==>
              && RegisterParamsOk(req) && !readFails && Holds(cache, SmsKey(req.mobile.value))
              && cache[SmsKey(req.mobile.value)] != req.smscode.value
    // no row is attempted unless the code was confirmed; the cache is only read
    ensures Commits(out.calls) <==> CodeConfirmed(req, cache, readFails)
    ensures !Writes(out.calls)
    ensures out.ret == OK <==>
              && CodeConfirmed(req, cache, readFails) && !commitFails
              && !IdTaken(users, newId) && !MobileTaken(users, req.mobile.value)
    ensures out.ret == DBERR <==>
              && RegisterParamsOk(req)
              && (readFails || (CodeConfirmed(req, cache, readFails)
                                && (commitFails || IdTaken(users, newId) || MobileTaken(users, req.mobile.value))))
    // success appends exactly one row and logs it in; anything else leaves the table as it was
    ensures out.ret == OK ==>
              && |out.users| == |users| + 1 && out.users[..|users|] == users
              && out.users[|users|] == User(newId, req.mobile.value, req.mobile.value, now)
              && out.session == Some(Session(newId, req.mobile.value, req.mobile.value))
    ensures out.ret != OK ==> out.users == users && out.session == None
  {
    if !(Truthy(req.mobile) && Truthy(req.smscode) && Truthy(req.password)) then
      RegisterOutcome(PARAMERR, users, None, [])
    else
      var mobile, smscode := req.mobile.value, req.smscode.value;
      if !IsMobile(mobile) then
        RegisterOutcome(PARAMERR, users, None, [])
      else
        var key := SmsKey(mobile);
        var read := [CacheGet(key)];
        if readFails then
          RegisterOutcome(DBERR, users, None, read)
        else if !Holds(cache, key) then
          RegisterOutcome(NODATA, users, None, read)
        else if cache[key] != smscode then
          RegisterOutcome(DATAERR, users, None, read)
        else
          var user := NewUser(mobile, newId, now);
          var committed := read + [DbCommit(user)];
          assert committed[1].DbCommit?;
          match Commit(users, user, commitFails)
          case None =>
            assert (committed + [DbRollback])[1].DbCommit?;
            RegisterOutcome(DBERR, users, None, committed + [DbRollback])
          case Some(users') =>
            RegisterOutcome(OK, users', Some(Session(user.id, user.mobile, user.nickName)), committed)
  }

  // ---------------------------------------------------------------- /image_code

  /** The image itself, or an HTTP abort with its status. */
  datatype ImageReply = Jpeg | Abort(status: nat)

  datatype ImageOutcome = ImageOutcome(reply: ImageReply, cache: Entries, calls: seq<Call>)

  /**
   GET /image_code. `text` is the label of the captcha the generator drew;
   the image bytes are not modelled.
   */
  function GetImageCode(imageCodeId: Option<string>, text: string, cache: Entries, writeFails: bool): (out: ImageOutcome)
    ensures out.reply == Abort(403) <==> !Truthy(imageCodeId)
    ensures !Truthy(imageCodeId) ==> out.calls == []
    ensures Truthy(imageCodeId) ==> out.calls == [CacheSet(ImageKey(imageCodeId.value), text)]
    ensures out.reply == Abort(500) <==> Truthy(imageCodeId) && writeFails
    ensures out.reply.Jpeg? <==> Truthy(imageCodeId) && !writeFails
    ensures out.reply.Jpeg? ==> StagedOnly(cache, out.cache, ImageKey(imageCodeId.value), text)
    ensures !out.reply.Jpeg? ==> out.cache == cache
  {
    if !Truthy(imageCodeId) then
      ImageOutcome(Abort(403), cache, [])
    else
      var key := ImageKey(imageCodeId.value);
      if writeFails then
        ImageOutcome(Abort(500), cache, [CacheSet(key, text)])
      else
        ImageOutcome(Jpeg, Stage(cache, key, text), [CacheSet(key, text)])
  }
}
