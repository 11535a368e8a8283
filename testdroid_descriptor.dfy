/**
 * The form checks of the current wrapper's descriptor: the memory setting,
 * the user name, the password and the build location. A check answers
 * "ok" or an error message; a value that names an environment variable
 * (`$`) cannot be checked before the build expands it and is let through.
 */
module TestdroidDescriptor {
  import opened Remote
  import opened JavaText
  import opened WrapperCommon

  /** `FormValidation.ok()` or `FormValidation.error(message)`. */
  datatype FormValidation = Accepted | Rejected(message: string)

  /**
   * `doCheckMemTotal`: a value naming a variable is let through; otherwise
   * it must be a 32-bit number that is not negative. A missing value makes
   * the check raise NullPointerException.
   */
  function CheckMemTotal(value: Option<string>): (r: Outcome<FormValidation>)
    ensures r.Fail? <==> value.None?
    ensures r.Fail? ==> r.error == NullReference
    ensures r.Ok? && !Contains(value.value, '$') ==>
      (r.value.Accepted? <==> ParseInt(value.value).Some? && ParseInt(value.value).value >= 0)
    ensures r.Ok? && !Contains(value.value, '$') && ParseInt(value.value).None? ==>
      r.value == Rejected("Memory allocation must be a number")
    ensures r.Ok? && !Contains(value.value, '$') && ParseInt(value.value).Some? && ParseInt(value.value).value < 0 ==>
      r.value == Rejected("Memory allocation must be 0 or greater")
    ensures r.Ok? && Contains(value.value, '$') ==> r.value.Accepted?
  {
    if value.None? then Fail(NullReference)
    else
      var v := value.value;
      if Contains(v, '$') then Ok(Accepted)
      else
        match ParseInt(v)
        case None => Ok(Rejected("Memory allocation must be a number"))
        case Some(n) => if n >= 0 then Ok(Accepted) else Ok(Rejected("Memory allocation must be 0 or greater"))
  }

  /** The shape of the checks of the mandatory fields: a missing or blank value is rejected with `message`. */
  function CheckMandatory(value: Option<string>, message: string): (r: FormValidation)
    ensures r.Rejected? <==> value.None? || forall i :: 0 <= i < |value.value| ==> TrimmedChar(value.value[i])
    ensures r.Rejected? ==> r.message == message
  {
    if value.None? then Rejected(message)
    else
      BlankIffAllTrimmed(value.value);
      if IsBlank(value.value) then Rejected(message) else Accepted
  }

  /** `doCheckUsername` */
  function CheckUsername(value: Option<string>): (r: FormValidation)
    ensures r.Rejected? <==> value.None? || forall i :: 0 <= i < |value.value| ==> TrimmedChar(value.value[i])
    ensures r.Rejected? ==> r.message == "Username is mandatory"
  {
    CheckMandatory(value, "Username is mandatory")
  }

  /** `doCheckPassword` */
  function CheckPassword(value: Option<string>): (r: FormValidation)
    ensures r.Rejected? <==> value.None? || forall i :: 0 <= i < |value.value| ==> TrimmedChar(value.value[i])
    ensures r.Rejected? ==> r.message == "Password is mandatory"
  {
    CheckMandatory(value, "Password is mandatory")
  }

  /**
   * `doCheckBuildURL`: a missing or blank value is rejected; one naming a
   * variable is let through; otherwise it must parse as a URI, whose parse
   * failure message (`uriError`) is appended to the error.
   */
  function CheckBuildURL(value: Option<string>, uriError: Option<string>): (r: FormValidation)
    ensures value.None? || IsBlank(value.value) ==> r == Rejected("Build URL is mandatory")
    ensures value.Some? && !IsBlank(value.value) && Contains(value.value, '$') ==> r == Accepted
    ensures r.Accepted? <==>
      value.Some? && !IsBlank(value.value) && (Contains(value.value, '$') || uriError.None?)
  {
    if value.None? || IsBlank(value.value) then Rejected("Build URL is mandatory")
    else if Contains(value.value, '$') then Accepted
    else if uriError.Some? then Rejected("Build URL must be a valid URI. " + uriError.value)
    else Accepted
  }

  /** A memory setting the form accepts without a variable in it is one `flashDevice` can parse. */
  lemma AcceptedMemTotalParses(v: string)
    requires CheckMemTotal(Some(v)) == Ok(Accepted) && !Contains(v, '$')
    ensures ParseInt(v).Some? && 0 <= ParseInt(v).value <= MaxInt
  {
  }

  /** Every 32-bit number that is not negative, as `Integer.toString` prints it, is accepted. */
  lemma MemTotalAcceptsNaturals(n: int)
    requires 0 <= n <= MaxInt
    ensures CheckMemTotal(Some(Show(n))) == Ok(Accepted)
  {
    ParseShow(n);
    NoDollarInNumber(n);
  }

  /** Every negative 32-bit number is rejected as negative. */
  lemma MemTotalRejectsNegatives(n: int)
    requires MinInt <= n < 0
    ensures CheckMemTotal(Some(Show(n))) == Ok(Rejected("Memory allocation must be 0 or greater"))
  {
    ParseShow(n);
    NoDollarInNumber(n);
  }

  /** The memory setting used when none is configured passes the check. */
  lemma DefaultMemTotalAccepted()
    ensures CheckMemTotal(Some(GetMemTotal(None))) == Ok(Accepted)
  {
    MemTotalAcceptsNaturals(0);
    assert Show(0) == "0";
  }

  /** A printed number holds digits and at most a sign. */
  lemma NoDollarInNumber(n: int)
    ensures !Contains(Show(n), '$')
  {
    var s := Show(n);
    if n < 0 {
      assert forall i :: 1 <= i < |s| ==> s[i] == ShowNat(-n)[i - 1];
    }
  }
}
