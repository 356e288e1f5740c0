/** Checking a league invite code: the trimmed code must be non-empty and equal
    the configured one. */
module LeagueValidate {
  import opened JsValues
  import opened Http

  datatype Valid = Valid

  /** One request; a missing variable is thrown and caught as 500. */
  function HandleLeagueValidate(verb: string, reqBody: JsValue, inviteCode: Env): (r: Response<Valid>)
    ensures verb != "POST" ==> r == Fail(405, MethodNotAllowed)
    ensures verb == "POST" && TrimmedText(Field(Or(reqBody, JObject(map[])), "leagueCode")) == "" ==>
      r == Fail(400, "Missing leagueCode")
    ensures verb == "POST" && TrimmedText(Field(Or(reqBody, JObject(map[])), "leagueCode")) != "" ==>
      && (RequireEnv("LNJP_INVITE_CODE", inviteCode).None? ==> r == Fail(500, MissingEnv("LNJP_INVITE_CODE").message))
      && (RequireEnv("LNJP_INVITE_CODE", inviteCode).Some? &&
          TrimmedText(Field(Or(reqBody, JObject(map[])), "leagueCode")) != inviteCode.value ==>
            r == Fail(401, "Invalid league code"))
    ensures r.Ok? <==>
      verb == "POST" && inviteCode.Some?
      && TrimmedText(Field(Or(reqBody, JObject(map[])), "leagueCode")) == inviteCode.value
      && inviteCode.value != ""
  {
    if verb != "POST" then Fail(405, MethodNotAllowed)
    else
      var code := TrimmedText(Field(Or(reqBody, JObject(map[])), "leagueCode"));
      if code == "" then Fail(400, "Missing leagueCode")
      else match RequireEnv("LNJP_INVITE_CODE", inviteCode)
        case None => Fail(500, MissingEnv("LNJP_INVITE_CODE").message)
        case Some(expected) => if code != expected then Fail(401, "Invalid league code") else Ok(Valid)
  }

  /** Surrounding whitespace in the submitted code does not matter. */
  lemma PaddedCodeAccepted(code: string, pad: string)
    requires code != [] && !IsWhitespace(code[0]) && !IsWhitespace(code[|code| - 1])
    requires forall i :: 0 <= i < |pad| ==> IsWhitespace(pad[i])
    ensures HandleLeagueValidate("POST", JObject(map["leagueCode" := JStr(pad + code + pad)]), Some(code)) == Ok(Valid)
  {
    var s := pad + code + pad;
    assert Trim(s) == code by {
      PaddedTrim(pad, code);
    }
  }

  lemma PaddedTrim(pad: string, code: string)
    requires code != [] && !IsWhitespace(code[0]) && !IsWhitespace(code[|code| - 1])
    requires forall i :: 0 <= i < |pad| ==> IsWhitespace(pad[i])
    ensures Trim(pad + code + pad) == code
  {
    var s := pad + code + pad;
    LeadingOfPadded(pad, code + pad);
    assert s == pad + (code + pad);
    var r := Trim(s);
    var lead, n := |pad|, |code|;
    assert s[lead..lead + n] == code;
    // code's last character is no whitespace, so it lies inside the trimmed part
    assert n <= |r| by {
      assert s[lead + n - 1] == code[n - 1];
    }
    // the trimmed part ends with no whitespace, so it ends before the trailing pad
    assert |r| <= n by {
      forall k | lead + n <= k < |s| ensures IsWhitespace(s[k]) {
        assert s[k] == pad[k - lead - n];
      }
      assert r[|r| - 1] == s[lead + |r| - 1];
    }
  }

  lemma {:induction false} LeadingOfPadded(pad: string, rest: string)
    requires rest != [] && !IsWhitespace(rest[0])
    requires forall i :: 0 <= i < |pad| ==> IsWhitespace(pad[i])
    ensures LeadingWhitespace(pad + rest) == |pad|
  {
    if pad != [] {
      LeadingOfPadded(pad[1..], rest);
      assert (pad + rest)[1..] == pad[1..] + rest;
    } else {
      assert pad + rest == rest;
    }
  }
}
