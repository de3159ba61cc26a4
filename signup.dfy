/**
 * The signup form: the four-criterion password strength meter, the gate
 * that refuses to submit a weak password, the form's field updates, and the
 * role-dependent request it sends.
 */
module Signup {
  import opened JsValues
  import opened JsStrings
  import opened CommaList

  // ---------------------------------------------------------------------------
  // Password strength
  // ---------------------------------------------------------------------------

  /** `s.length`: JavaScript counts UTF-16 code units, two for a character outside the BMP. */
  function Utf16Length(s: string): nat {
    if s == [] then 0
    else Utf16Length(s[..|s| - 1]) + (if s[|s| - 1] as int < 0x1_0000 then 1 else 2)
  }

  predicate IsUpper(c: char) { 'A' <= c <= 'Z' }
  predicate IsDigit(c: char) { '0' <= c <= '9' }
  predicate IsAlnum(c: char) { IsUpper(c) || 'a' <= c <= 'z' || IsDigit(c) }

  /** `/[A-Z]/.test(p)` */
  predicate HasUpper(p: string) { exists i :: 0 <= i < |p| && IsUpper(p[i]) }
  /** `/[0-9]/.test(p)` */
  predicate HasDigit(p: string) { exists i :: 0 <= i < |p| && IsDigit(p[i]) }
  /** `/[^A-Za-z0-9]/.test(p)` */
  predicate HasSymbol(p: string) { exists i :: 0 <= i < |p| && !IsAlnum(p[i]) }

  function Indicator(b: bool): nat { if b then 1 else 0 }

  /** The number of criteria the password meets. */
  function Score(p: string): (n: nat)
    ensures n <= 4
  {
    Indicator(Utf16Length(p) >= 8) + Indicator(HasUpper(p)) + Indicator(HasDigit(p)) + Indicator(HasSymbol(p))
  }

  /** The label of a score: "Weak" up to 1, "Medium" at 2, "Strong" from 3. */
  function StrengthLabel(n: nat): (strength: string)
    ensures strength == "Weak" <==> n <= 1
    ensures strength == "Medium" <==> n == 2
    ensures strength == "Strong" <==> n >= 3
  {
    if n <= 1 then "Weak" else if n == 2 then "Medium" else "Strong"
  }

  /** `checkStrength(password)`, with its counter. */
  method CheckStrength(password: string) returns (result: string)
    ensures result == StrengthLabel(Score(password))
    ensures result == "Weak" || result == "Medium" || result == "Strong"
  {
    var strength := 0;
    if Utf16Length(password) >= 8 { strength := strength + 1; }
    if HasUpper(password) { strength := strength + 1; }
    if HasDigit(password) { strength := strength + 1; }
    if HasSymbol(password) { strength := strength + 1; }
    if strength <= 1 { return "Weak"; }
    if strength == 2 { return "Medium"; }
    return "Strong";
  }

  lemma {:induction false} Utf16LengthAppend(p: string, q: string)
    ensures Utf16Length(p + q) >= Utf16Length(p)
    ensures Utf16Length(p) >= |p|
  {
    if q != [] {
      assert (p + q)[..|p + q| - 1] == p + q[..|q| - 1];
      Utf16LengthAppend(p, q[..|q| - 1]);
    } else {
      assert p + q == p;
      if p != [] {
        Utf16LengthAppend(p[..|p| - 1], []);
        assert p[..|p| - 1] + [] == p[..|p| - 1];
      }
    }
  }

  /** Typing more characters never lowers the score: each criterion is a length threshold or an "exists". */
  lemma ScoreMonotone(p: string, q: string)
    ensures Score(p) <= Score(p + q)
  {
    Utf16LengthAppend(p, q);
    if HasUpper(p) {
      var i :| 0 <= i < |p| && IsUpper(p[i]);
      assert (p + q)[i] == p[i];
    }
    if HasDigit(p) {
      var i :| 0 <= i < |p| && IsDigit(p[i]);
      assert (p + q)[i] == p[i];
    }
    if HasSymbol(p) {
      var i :| 0 <= i < |p| && !IsAlnum(p[i]);
      assert (p + q)[i] == p[i];
    }
  }

  /** The order of the labels, weakest first. */
  function Rank(name: string): nat {
    if name == "Weak" then 0 else if name == "Medium" then 1 else 2
  }

  /** Appending never weakens the label. */
  lemma LabelMonotone(p: string, q: string)
    ensures Rank(StrengthLabel(Score(p))) <= Rank(StrengthLabel(Score(p + q)))
  {
    ScoreMonotone(p, q);
  }

  /** Without characters outside the BMP, the JavaScript length is the character count. */
  lemma {:induction false} Utf16LengthBmp(s: string)
    requires forall i :: 0 <= i < |s| ==> s[i] as int < 0x1_0000
    ensures Utf16Length(s) == |s|
  {
    if s != [] {
      Utf16LengthBmp(s[..|s| - 1]);
    }
  }

  /** Eight lower-case letters meet one criterion only: "Weak". */
  lemma WeakExample()
    ensures StrengthLabel(Score("password")) == "Weak"
  {
    var p := "password";
    Utf16LengthBmp(p);
    assert forall i :: 0 <= i < |p| ==> IsAlnum(p[i]) && !IsUpper(p[i]) && !IsDigit(p[i]);
  }

  /** Length, an upper-case letter and a digit: "Strong", without any symbol. */
  lemma StrongExample()
    ensures StrengthLabel(Score("Passwor1")) == "Strong"
  {
    var p := "Passwor1";
    Utf16LengthBmp(p);
    assert IsUpper(p[0]) && IsDigit(p[7]);
  }

  /** A short password with an upper-case letter and a digit: "Medium". */
  lemma MediumExample()
    ensures StrengthLabel(Score("Ab1")) == "Medium"
  {
    var p := "Ab1";
    Utf16LengthBmp(p);
    assert IsUpper(p[0]) && IsDigit(p[2]);
    assert forall i :: 0 <= i < |p| ==> IsAlnum(p[i]);
  }

  // ---------------------------------------------------------------------------
  // The request
  // ---------------------------------------------------------------------------

  /** Every key of the form state. */
  const FormKeys: set<string> := {
    "enrollment_number", "full_name", "email", "password", "contact_number",
    "address", "dob", "image", "stream", "major", "skills", "interests",
    "mentor_id", "department", "designation", "research_areas" }

  /** The fields both roles send. */
  datatype BasePayload = BasePayload(
    fullName: string, email: string, password: string, contactNumber: string,
    address: string, dob: string, image: string)

  datatype SignupPayload =
    | StudentSignup(base: BasePayload, enrollmentNumber: string, stream: string, major: string,
                    skills: seq<string>, interests: seq<string>)
    | MentorSignup(base: BasePayload, mentorId: string, department: string, designation: string,
                   researchAreas: seq<string>)

  /** A request: the path under the API base and its JSON body. */
  datatype SignupRequest = SignupRequest(path: string, payload: SignupPayload)

  function BaseOf(form: map<string, string>): BasePayload
    requires FormKeys <= form.Keys
  {
    BasePayload(form["full_name"], form["email"], form["password"], form["contact_number"],
      form["address"], form["dob"], form["image"])
  }

  /**
   * The request `handleSubmit` sends for `userType`: a student request to
   * "/signup/student" with the student fields, anything else to
   * "/signup/mentor" with the mentor fields; every list field is parsed.
   */
  function BuildSignupRequest(userType: string, form: map<string, string>): (r: SignupRequest)
    requires FormKeys <= form.Keys
    ensures r.path == (if userType == "student" then "/signup/student" else "/signup/mentor")
    ensures r.payload.StudentSignup? <==> userType == "student"
    ensures r.payload.base == BaseOf(form) && r.payload.base.password == form["password"]
    ensures r.payload.StudentSignup? ==>
      && r.payload.enrollmentNumber == form["enrollment_number"]
      && r.payload.stream == form["stream"] && r.payload.major == form["major"]
      && r.payload.skills == ParseList(form["skills"]) && r.payload.interests == ParseList(form["interests"])
    ensures r.payload.MentorSignup? ==>
      && r.payload.mentorId == form["mentor_id"]
      && r.payload.department == form["department"] && r.payload.designation == form["designation"]
      && r.payload.researchAreas == ParseList(form["research_areas"])
  {
    if userType == "student" then
      SignupRequest("/signup/student", StudentSignup(BaseOf(form), form["enrollment_number"],
        form["stream"], form["major"], ParseList(form["skills"]), ParseList(form["interests"])))
    else
      SignupRequest("/signup/mentor", MentorSignup(BaseOf(form), form["mentor_id"],
        form["department"], form["designation"], ParseList(form["research_areas"])))
  }

  /** Every list a signup request carries holds only non-empty, trimmed, comma-free items. */
  lemma SignupListsClean(userType: string, form: map<string, string>)
    requires FormKeys <= form.Keys
    ensures var p := BuildSignupRequest(userType, form).payload;
      (p.StudentSignup? ==> (forall x :: x in p.skills ==> x != "" && IsTrimmed(x)) &&
                            (forall x :: x in p.interests ==> x != "" && IsTrimmed(x))) &&
      (p.MentorSignup? ==> forall x :: x in p.researchAreas ==> x != "" && IsTrimmed(x))
  {
  }

  // ---------------------------------------------------------------------------
  // The form
  // ---------------------------------------------------------------------------

  const WeakPasswordMessage := "Password too weak. Use at least 8 chars with uppercase, numbers & symbols."

  /** A 2xx reply to the signup request. */
  predicate Accepted(reply: Reply<ErrorBody>) {
    reply.Response? && IsOk(reply.status)
  }

  /** The toast a sent signup request ends with: success, the server's error, or the network error. */
  function SubmitToast(reply: Reply<ErrorBody>): (t: Toast)
    ensures t.SuccessToast? <==> Accepted(reply)
    ensures reply.Thrown? ==> t == ErrorToast("Network error. Please try again.")
    ensures Accepted(reply) ==> t == SuccessToast("Signup successful! Redirecting to login...")
    ensures reply.Response? && !Accepted(reply) ==>
      t == ErrorToast(OrElse(reply.body.error, "Signup failed. Check your data.")) && t.text != ""
  {
    if reply.Thrown? then ErrorToast("Network error. Please try again.")
    else if IsOk(reply.status) then SuccessToast("Signup successful! Redirecting to login...")
    else ErrorToast(OrElse(reply.body.error, "Signup failed. Check your data."))
  }

  class SignupForm {
    var userType: string
    var formData: map<string, string>
    /** The meter's label; "" until the password is first typed. */
    var passwordStrength: string
    var toasts: seq<Toast>
    /** Where the page goes after the success toast, once the timer fires. */
    var redirect: Option<string>

    ghost predicate Valid()
      reads this
    {
      FormKeys <= formData.Keys
    }

    constructor ()
      ensures Valid()
      ensures userType == "student" && passwordStrength == "" && toasts == [] && redirect.None?
      ensures formData.Keys == FormKeys && forall k :: k in formData ==> formData[k] == ""
    {
      userType := "student";
      formData := map k | k in FormKeys :: "";
      passwordStrength := "";
      toasts := [];
      redirect := None;
    }

    /** The role buttons. */
    method SetUserType(t: string)
      modifies this`userType
      ensures userType == t
    {
      userType := t;
    }

    /**
     * `handleChange` for the input `id`: the strength is recomputed for the
     * password only; a chosen file sets `image` to its object URL (given
     * here as `fileUrl`); otherwise the field `id` takes the value.
     */
    method HandleChange(id: string, value: string, fileUrl: Option<string>)
      requires Valid()
      modifies this`formData, this`passwordStrength
      ensures Valid()
      ensures passwordStrength == if id == "password" then StrengthLabel(Score(value)) else old(passwordStrength)
      ensures formData == if id == "image" && fileUrl.Some? then old(formData)["image" := fileUrl.value]
                          else old(formData)[id := value]
      ensures forall k :: k in old(formData) && k != id ==> formData[k] == old(formData)[k]
    {
      if id == "password" {
        passwordStrength := CheckStrength(value);
      }
      if id == "image" && fileUrl.Some? {
        formData := formData["image" := fileUrl.value];
      } else {
        formData := formData[id := value];
      }
    }

    /**
     * `handleSubmit`, given the reply. A "Weak" meter refuses with a toast
     * and sends nothing; otherwise the role's request is sent, and a 2xx
     * reply schedules the move to "/login".
     */
    method HandleSubmit(reply: Reply<ErrorBody>) returns (request: Option<SignupRequest>)
      requires Valid()
      modifies this`toasts, this`redirect
      ensures passwordStrength == "Weak" ==>
        request.None? && toasts == old(toasts) + [ErrorToast(WeakPasswordMessage)] && redirect == old(redirect)
      ensures passwordStrength != "Weak" ==>
        && request == Some(BuildSignupRequest(userType, formData))
        && toasts == old(toasts) + [SubmitToast(reply)]
        && redirect == if Accepted(reply) then Some("/login") else old(redirect)
    {
      if passwordStrength == "Weak" {
        toasts := toasts + [ErrorToast(WeakPasswordMessage)];
        return None;
      }
      request := Some(BuildSignupRequest(userType, formData));
      toasts := toasts + [SubmitToast(reply)];
      if Accepted(reply) {
        redirect := Some("/login");
      }
    }
  }

  /**
   * Once a password is typed, submission is blocked exactly when that
   * password scores at most one criterion.
   */
  method TypedPasswordGate(password: string, reply: Reply<ErrorBody>) returns (sent: bool)
    ensures sent <==> Score(password) >= 2
  {
    var form := new SignupForm();
    form.HandleChange("password", password, None);
    var request := form.HandleSubmit(reply);
    sent := request.Some?;
  }
}
