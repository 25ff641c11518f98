/** The login and registration forms of the web front end
    (Frontend/web/forms.py). Each field is cleaned the way the form library
    cleans a character or choice field; a field that fails is left out of the
    cleaned data and its error is recorded; then the form's own `clean` hook
    runs over the cleaned data and may add errors of its own. */
module Forms {
  import opened Domain
  import opened Text

  /** What was wrong with a field. */
  datatype Problem =
    | Missing                  // a required field is empty after stripping
    | TooShort(limit: nat)
    | TooLong(limit: nat)
    | NullCharacter            // a character field's value contains a NUL character
    | NotAChoice               // a choice field got a value outside its choices
    | NotAlphanumeric          // username rule
    | NeedsLetterAndDigit      // registration password rule
    | OtpRequired              // login with OTP and no code
    | PasswordRequired         // login with password and no password
    | PasswordsDiffer          // registration confirmation mismatch
    | InvalidLanguageCode      // language removal rule

  /** The fields of the two forms, by their form names. */
  datatype Field =
    | MethodField | Username | Password | Otp                      // login
    | Name | EmailAddress | Role | PasswordConfirm                 // registration (with Password)

  datatype FieldError = FieldError(field: Field, problem: Problem)

  /** The outcome of cleaning one field: its value, or every problem its
      validators found, in the order they ran. */
  datatype Cleaned = Value(value: string) | Invalid(problems: seq<Problem>)

  /** The problems a field's outcome reports; none for a value. */
  function Problems(c: Cleaned): seq<Problem> {
    if c.Invalid? then c.problems else []
  }

  /** A form's cleaned data and its errors, in the order they were added. */
  datatype FormData = FormData(cleaned: map<Field, string>, errors: seq<FieldError>)

  /** The bound checks of a character field, in validator order: the minimum
      length, then the maximum length, then the ban on NUL characters. */
  function CharProblems(v: string, minLength: nat, maxLength: Option<nat>): seq<Problem> {
    (if |v| < minLength then [TooShort(minLength)] else [])
    + (if maxLength.Some? && |v| > maxLength.value then [TooLong(maxLength.value)] else [])
    + (if '\0' in v then [NullCharacter] else [])
  }

  /** A character field with stripping on: the value is stripped; an empty
      value is an error only for a required field and skips the other
      checks; otherwise every bound check runs and each failing one reports
      its problem. */
  function CleanChar(raw: string, required: bool, minLength: nat, maxLength: Option<nat>): (r: Cleaned)
    ensures r.Value? ==> r.value == Strip(raw)
    ensures r.Value? <==>
              if Strip(raw) == [] then !required
              else && minLength <= |Strip(raw)|
                   && (maxLength.None? || |Strip(raw)| <= maxLength.value)
                   && '\0' !in Strip(raw)
    ensures r.Invalid? ==> r.problems != []
    ensures Missing in Problems(r) <==> Strip(raw) == [] && required
    ensures Strip(raw) != [] ==> (TooShort(minLength) in Problems(r) <==> |Strip(raw)| < minLength)
    ensures Strip(raw) != [] && maxLength.Some? ==>
              (TooLong(maxLength.value) in Problems(r) <==> |Strip(raw)| > maxLength.value)
    ensures NullCharacter in Problems(r) <==> '\0' in Strip(raw)
    ensures forall p :: p in Problems(r) ==>
              || p == Missing || p == TooShort(minLength) || p == NullCharacter
              || (maxLength.Some? && p == TooLong(maxLength.value))
  {
    var v := Strip(raw);
    if v == [] then (if required then Invalid([Missing]) else Value([]))
    else
      var problems := CharProblems(v, minLength, maxLength);
      if problems == [] then Value(v) else Invalid(problems)
  }

  /** A required choice field: the value is taken as it is (no stripping) and
      must be one of the choices. */
  function CleanChoice(raw: string, choices: seq<string>): (r: Cleaned)
    ensures r.Value? <==> raw in choices && raw != []
    ensures r.Value? ==> r.value == raw
    ensures r.Invalid? ==> r.problems == [Missing] || r.problems == [NotAChoice]
  {
    if raw == [] then Invalid([Missing])
    else if raw !in choices then Invalid([NotAChoice])
    else Value(raw)
  }

  /** Each problem of a field, as an error on that field, in order. */
  function Tagged(field: Field, problems: seq<Problem>): (r: seq<FieldError>)
    ensures r == [] <==> problems == []
    ensures forall g, p :: FieldError(g, p) in r <==> g == field && p in problems
  {
    if problems == [] then [] else [FieldError(field, problems[0])] + Tagged(field, problems[1..])
  }

  /** `add_error`: the error is appended and the field leaves the cleaned data. */
  function WithError(d: FormData, field: Field, problem: Problem): FormData {
    FormData(d.cleaned - {field}, d.errors + [FieldError(field, problem)])
  }

  /** One field's turn in the field-cleaning pass: a value is stored, and a
      failed field leaves the cleaned data with all its problems recorded. */
  function WithField(d: FormData, field: Field, c: Cleaned): FormData {
    match c
    case Value(v) => d.(cleaned := d.cleaned[field := v])
    case Invalid(ps) => FormData(d.cleaned - {field}, d.errors + Tagged(field, ps))
  }

  /** `cleaned.get(field) or ""` */
  function Get(cleaned: map<Field, string>, field: Field): string {
    if field in cleaned then cleaned[field] else ""
  }

  const Empty: FormData := FormData(map[], [])

  /** What `cleaned.get(field) or ""` sees after a field's turn. */
  function ValueOf(c: Cleaned): string {
    if c.Value? then c.value else ""
  }

  /** A field's turn decides that field's cleaned value and adds exactly its
      own problems as errors; every other field is left as it was. */
  lemma WithFieldEffect(d: FormData, f: Field, c: Cleaned)
    ensures Get(WithField(d, f, c).cleaned, f) == ValueOf(c)
    ensures forall g :: g != f ==> Get(WithField(d, f, c).cleaned, g) == Get(d.cleaned, g)
    ensures forall g, p :: FieldError(g, p) in WithField(d, f, c).errors <==>
              FieldError(g, p) in d.errors || (g == f && p in Problems(c))
    ensures WithField(d, f, c).errors == [] <==> d.errors == [] && Problems(c) == []
  {
  }

  /** Adding an error removes the field's value and adds exactly that error. */
  lemma WithErrorEffect(d: FormData, f: Field, p: Problem)
    ensures Get(WithError(d, f, p).cleaned, f) == ""
    ensures forall g :: g != f ==> Get(WithError(d, f, p).cleaned, g) == Get(d.cleaned, g)
    ensures forall g, q :: FieldError(g, q) in WithError(d, f, p).errors <==>
              FieldError(g, q) in d.errors || (g == f && q == p)
    ensures WithError(d, f, p).errors != []
  {
  }

  /** The state a form keeps while it is cleaned. */
  class FormState {
    var cleaned: map<Field, string>
    var errors: seq<FieldError>

    constructor ()
      ensures cleaned == map[] && errors == []
    {
      cleaned := map[];
      errors := [];
    }

    ghost function Data(): FormData
      reads this
    {
      FormData(cleaned, errors)
    }

    /** `add_error` */
    method AddError(field: Field, problem: Problem)
      modifies this
      ensures Data() == WithError(old(Data()), field, problem)
      ensures |errors| == |old(errors)| + 1 && field !in cleaned
    {
      cleaned := cleaned - {field};
      errors := errors + [FieldError(field, problem)];
    }

    /** Records one field's cleaning outcome. */
    method Record(field: Field, c: Cleaned)
      modifies this
      ensures Data() == WithField(old(Data()), field, c)
    {
      match c {
        case Value(v) =>
          cleaned := cleaned[field := v];
        case Invalid(ps) =>
          cleaned := cleaned - {field};
          errors := errors + Tagged(field, ps);
      }
    }
  }

  // ---------------------------------------------------------------- login

  const LoginMethods: seq<string> := ["password", "otp"]

  datatype LoginInput = LoginInput(loginMethod: string, username: string, password: string, otp: string)

  /** The field pass of the login form, in declaration order, given each
      field's cleaning outcome. */
  function LoginPass(m: Cleaned, u: Cleaned, pw: Cleaned, o: Cleaned): FormData {
    WithField(WithField(WithField(WithField(Empty, MethodField, m), Username, u), Password, pw), Otp, o)
  }

  /** The field pass of the login form. */
  function LoginFields(input: LoginInput): FormData {
    LoginPass(CleanChoice(input.loginMethod, LoginMethods), CleanChar(input.username, true, 1, None),
              CleanChar(input.password, false, 1, None), CleanChar(input.otp, false, 4, Some(12)))
  }

  /** The method and username fields leave the method's value, only the
      username's problems among the fields the hook reads, and no secret. */
  lemma LoginHeadEffect(m: Cleaned, u: Cleaned)
    ensures var d := WithField(WithField(Empty, MethodField, m), Username, u);
            && Get(d.cleaned, MethodField) == ValueOf(m)
            && Password !in d.cleaned && Otp !in d.cleaned
            && (forall p :: FieldError(Username, p) in d.errors <==> p in Problems(u))
            && (forall p :: FieldError(Password, p) !in d.errors)
            && (forall p :: FieldError(Otp, p) !in d.errors)
            && (d.errors == [] <==> Problems(m) == [] && Problems(u) == [])
  {
    WithFieldEffect(Empty, MethodField, m);
    WithFieldEffect(WithField(Empty, MethodField, m), Username, u);
  }

  /** In the login pass each field holds its own outcome and carries exactly
      its own problems, and the pass is clean exactly when no field reports one. */
  lemma LoginPassEffect(m: Cleaned, u: Cleaned, pw: Cleaned, o: Cleaned)
    ensures var d := LoginPass(m, u, pw, o);
            && Get(d.cleaned, MethodField) == ValueOf(m)
            && Get(d.cleaned, Password) == ValueOf(pw)
            && Get(d.cleaned, Otp) == ValueOf(o)
    ensures forall p :: FieldError(Username, p) in LoginPass(m, u, pw, o).errors <==> p in Problems(u)
    ensures forall p :: FieldError(Password, p) in LoginPass(m, u, pw, o).errors <==> p in Problems(pw)
    ensures forall p :: FieldError(Otp, p) in LoginPass(m, u, pw, o).errors <==> p in Problems(o)
    ensures LoginPass(m, u, pw, o).errors == [] <==>
              Problems(m) == [] && Problems(u) == [] && Problems(pw) == [] && Problems(o) == []
  {
    var d2 := WithField(WithField(Empty, MethodField, m), Username, u);
    var d3 := WithField(d2, Password, pw);
    LoginHeadEffect(m, u);
    WithFieldEffect(d2, Password, pw);
    WithFieldEffect(d3, Otp, o);
  }

  /** LoginPassEffect for the outcomes of the login form's own fields. */
  lemma LoginFieldsEffect(input: LoginInput)
    ensures var d := LoginFields(input);
            && Get(d.cleaned, MethodField) == ValueOf(CleanChoice(input.loginMethod, LoginMethods))
            && Get(d.cleaned, Password) == ValueOf(CleanChar(input.password, false, 1, None))
            && Get(d.cleaned, Otp) == ValueOf(CleanChar(input.otp, false, 4, Some(12)))
    ensures forall p :: FieldError(Username, p) in LoginFields(input).errors <==>
              p in Problems(CleanChar(input.username, true, 1, None))
    ensures forall p :: FieldError(Password, p) in LoginFields(input).errors <==>
              p in Problems(CleanChar(input.password, false, 1, None))
    ensures forall p :: FieldError(Otp, p) in LoginFields(input).errors <==>
              p in Problems(CleanChar(input.otp, false, 4, Some(12)))
    ensures LoginFields(input).errors == [] <==>
              && CleanChoice(input.loginMethod, LoginMethods).Value?
              && CleanChar(input.username, true, 1, None).Value?
              && CleanChar(input.password, false, 1, None).Value?
              && CleanChar(input.otp, false, 4, Some(12)).Value?
  {
    LoginPassEffect(CleanChoice(input.loginMethod, LoginMethods), CleanChar(input.username, true, 1, None),
                    CleanChar(input.password, false, 1, None), CleanChar(input.otp, false, 4, Some(12)));
  }

  /** The login form's `clean`: with method "otp" the code must be present,
      with any other method the password. */
  function LoginClean(d: FormData): FormData {
    if Get(d.cleaned, MethodField) == "otp" then
      if IsBlank(Get(d.cleaned, Otp)) then WithError(d, Otp, OtpRequired) else d
    else
      if IsBlank(Get(d.cleaned, Password)) then WithError(d, Password, PasswordRequired) else d
  }

  /** The hook adds no error exactly when the chosen method's secret is present. */
  lemma LoginCleanEffect(d: FormData)
    ensures LoginClean(d).errors == [] <==>
              && d.errors == []
              && (Get(d.cleaned, MethodField) == "otp" ==> !IsBlank(Get(d.cleaned, Otp)))
              && (Get(d.cleaned, MethodField) != "otp" ==> !IsBlank(Get(d.cleaned, Password)))
  {
  }

  /** The password branch of the login hook adds the password-required
      error exactly when the cleaned password is blank, and nothing else. */
  lemma LoginCleanPasswordBranch(d: FormData)
    requires Get(d.cleaned, MethodField) != "otp"
    ensures forall g, p :: FieldError(g, p) in LoginClean(d).errors <==>
              FieldError(g, p) in d.errors || (g == Password && p == PasswordRequired && IsBlank(Get(d.cleaned, Password)))
  {
    if IsBlank(Get(d.cleaned, Password)) {
      WithErrorEffect(d, Password, PasswordRequired);
    }
  }

  /** The OTP branch of the login hook adds the OTP-required error exactly
      when the cleaned code is blank, and nothing else. */
  lemma LoginCleanOtpBranch(d: FormData)
    requires Get(d.cleaned, MethodField) == "otp"
    ensures forall g, p :: FieldError(g, p) in LoginClean(d).errors <==>
              FieldError(g, p) in d.errors || (g == Otp && p == OtpRequired && IsBlank(Get(d.cleaned, Otp)))
  {
    if IsBlank(Get(d.cleaned, Otp)) {
      WithErrorEffect(d, Otp, OtpRequired);
    }
  }

  /** The login hook after the field pass, for any field outcomes that do
      not themselves report a hook error: the chosen method's secret gets its
      error exactly when its cleaned value is blank, and the other secret
      gets none. */
  lemma LoginPassBranches(m: Cleaned, u: Cleaned, pw: Cleaned, o: Cleaned)
    requires PasswordRequired !in Problems(pw) && OtpRequired !in Problems(o)
    ensures var errors := LoginClean(LoginPass(m, u, pw, o)).errors;
            && (ValueOf(m) == "otp" ==>
                  && (FieldError(Otp, OtpRequired) in errors <==> IsBlank(ValueOf(o)))
                  && FieldError(Password, PasswordRequired) !in errors)
            && (ValueOf(m) != "otp" ==>
                  && (FieldError(Password, PasswordRequired) in errors <==> IsBlank(ValueOf(pw)))
                  && FieldError(Otp, OtpRequired) !in errors)
  {
    var d := LoginPass(m, u, pw, o);
    LoginPassEffect(m, u, pw, o);
    if ValueOf(m) == "otp" {
      LoginCleanOtpBranch(d);
    } else {
      LoginCleanPasswordBranch(d);
    }
  }

  /** A login pass followed by the hook is clean exactly when no field
      reports a problem and the chosen method's secret is not blank. */
  lemma LoginPassValid(m: Cleaned, u: Cleaned, pw: Cleaned, o: Cleaned)
    ensures LoginClean(LoginPass(m, u, pw, o)).errors == [] <==>
              && Problems(m) == [] && Problems(u) == [] && Problems(pw) == [] && Problems(o) == []
              && (ValueOf(m) == "otp" ==> !IsBlank(ValueOf(o)))
              && (ValueOf(m) != "otp" ==> !IsBlank(ValueOf(pw)))
  {
    LoginPassEffect(m, u, pw, o);
    LoginCleanEffect(LoginPass(m, u, pw, o));
  }

  /** The whole validation of a login submission. */
  function LoginValidation(input: LoginInput): FormData {
    LoginClean(LoginFields(input))
  }

  /** What `cleaned.get(field) or ""` holds after an optional character
      field is blank exactly when the input is blank or the field refused it. */
  lemma OptionalValueBlank(raw: string, minLength: nat, maxLength: Option<nat>)
    ensures IsBlank(ValueOf(CleanChar(raw, false, minLength, maxLength))) <==>
              IsBlank(raw) || CleanChar(raw, false, minLength, maxLength).Invalid?
  {
    StrippedBlank(raw);
  }

  /** With method "otp", the OTP-required error is added exactly when the
      code did not reach the cleaned data as a 4 to 12 character value after
      stripping (it was empty, or the field refused it), and no password
      error is added. */
  lemma LoginOtpBranch(input: LoginInput)
    requires input.loginMethod == "otp"
    ensures FieldError(Otp, OtpRequired) in LoginValidation(input).errors <==>
              !(4 <= |Strip(input.otp)| <= 12) || '\0' in Strip(input.otp)
    ensures FieldError(Password, PasswordRequired) !in LoginValidation(input).errors
  {
    LoginPassBranches(CleanChoice(input.loginMethod, LoginMethods), CleanChar(input.username, true, 1, None),
                      CleanChar(input.password, false, 1, None), CleanChar(input.otp, false, 4, Some(12)));
    OptionalValueBlank(input.otp, 4, Some(12));
  }


  /** With any other method, the password-required error is added exactly
      when the password did not reach the cleaned data (it is blank, or the
      field refused a NUL character), and no OTP-required error is added. */
  lemma LoginPasswordBranch(input: LoginInput)
    requires input.loginMethod != "otp"
    ensures FieldError(Password, PasswordRequired) in LoginValidation(input).errors <==>
              IsBlank(input.password) || '\0' in Strip(input.password)
    ensures FieldError(Otp, OtpRequired) !in LoginValidation(input).errors
  {
    LoginPassBranches(CleanChoice(input.loginMethod, LoginMethods), CleanChar(input.username, true, 1, None),
                      CleanChar(input.password, false, 1, None), CleanChar(input.otp, false, 4, Some(12)));
    OptionalValueBlank(input.password, 1, None);
  }


  /** The OTP field, whichever method is chosen, refuses a non-empty code
      that is not 4 to 12 characters after stripping or that holds a NUL
      character, naming each reason; an empty code passes the field itself. */
  lemma LoginOtpLength(input: LoginInput)
    ensures (exists p :: FieldError(Otp, p) in LoginFields(input).errors) <==>
              Strip(input.otp) != [] && (!(4 <= |Strip(input.otp)| <= 12) || '\0' in Strip(input.otp))
    ensures FieldError(Otp, TooShort(4)) in LoginFields(input).errors <==> 0 < |Strip(input.otp)| < 4
    ensures FieldError(Otp, TooLong(12)) in LoginFields(input).errors <==> |Strip(input.otp)| > 12
    ensures FieldError(Otp, NullCharacter) in LoginFields(input).errors <==> '\0' in Strip(input.otp)
  {
    LoginFieldsEffect(input);
    var c := CleanChar(input.otp, false, 4, Some(12));
    if c.Invalid? {
      assert FieldError(Otp, c.problems[0]) in LoginFields(input).errors;
    }
  }


  /** A login submission is valid exactly when the method is one of the two
      choices, the username is not blank, a given OTP has 4 to 12
      characters, no text field holds a NUL character, and the chosen
      method's secret is present. */
  lemma LoginValidIff(input: LoginInput)
    ensures LoginValidation(input).errors == [] <==>
              && input.loginMethod in LoginMethods
              && !IsBlank(input.username)
              && (Strip(input.otp) == [] || 4 <= |Strip(input.otp)| <= 12)
              && '\0' !in Strip(input.username)
              && '\0' !in Strip(input.password)
              && '\0' !in Strip(input.otp)
              && (input.loginMethod == "otp" ==> Strip(input.otp) != [])
              && (input.loginMethod != "otp" ==> !IsBlank(input.password))
  {
    LoginPassValid(CleanChoice(input.loginMethod, LoginMethods), CleanChar(input.username, true, 1, None),
                   CleanChar(input.password, false, 1, None), CleanChar(input.otp, false, 4, Some(12)));
    OptionalValueBlank(input.otp, 4, Some(12));
    OptionalValueBlank(input.password, 1, None);
  }


  class LoginForm {
    const input: LoginInput
    const state: FormState

    constructor (input: LoginInput)
      ensures this.input == input && fresh(state) && state.Data() == Empty
    {
      this.input := input;
      state := new FormState();
    }

    /** `clean` */
    method Clean()
      modifies state
      ensures state.Data() == LoginClean(old(state.Data()))
    {
      var chosen := Get(state.cleaned, MethodField);
      if chosen == "otp" {
        if IsBlank(Get(state.cleaned, Otp)) {
          state.AddError(Otp, OtpRequired);
        }
      } else {
        if IsBlank(Get(state.cleaned, Password)) {
          state.AddError(Password, PasswordRequired);
        }
      }
    }

    /** `is_valid` on a freshly bound form: the field pass, then `clean`. */
    method IsValid() returns (valid: bool)
      requires state.Data() == Empty
      modifies state
      ensures state.Data() == LoginValidation(input)
      ensures valid <==> state.errors == []
    {
      state.Record(MethodField, CleanChoice(input.loginMethod, LoginMethods));
      state.Record(Username, CleanChar(input.username, true, 1, None));
      state.Record(Password, CleanChar(input.password, false, 1, None));
      state.Record(Otp, CleanChar(input.otp, false, 4, Some(12)));
      Clean();
      valid := state.errors == [];
    }
  }

  // --------------------------------------------------------- registration

  const RegisterRoles: seq<string> := ["CUSTOMER", "TRANSLATOR"]

  /** The e-mail field is taken as a required character field; its address
      syntax check is not part of this model. */
  datatype RegisterInput = RegisterInput(name: string, emailAddress: string, role: string,
                                         password: string, passwordConfirm: string)

  /** `clean_name`: the username must be alphanumeric. */
  function CleanName(name: string): (r: Cleaned)
    ensures r.Value? <==> IsAlnum(name)
    ensures r.Value? ==> r.value == name
    ensures r.Invalid? ==> r.problems == [NotAlphanumeric]
  {
    if IsAlnum(name) then Value(name) else Invalid([NotAlphanumeric])
  }

  /** `clean_password`: at least one letter and at least one digit. */
  function CleanPassword(password: string): (r: Cleaned)
    ensures r.Value? <==> HasLetter(password) && HasDigit(password)
    ensures r.Value? ==> r.value == password
    ensures r.Invalid? ==> r.problems == [NeedsLetterAndDigit]
  {
    if HasLetter(password) && HasDigit(password) then Value(password) else Invalid([NeedsLetterAndDigit])
  }

  /** A field followed by its own clean hook, which runs only when the field passed. */
  function Then(c: Cleaned, hook: string -> Cleaned): Cleaned {
    if c.Value? then hook(c.value) else c
  }

  /** The field pass of the registration form, in declaration order, given
      each field's outcome (its hook included). */
  function RegisterPass(n: Cleaned, e: Cleaned, r: Cleaned, pw: Cleaned, pc: Cleaned): FormData {
    WithField(WithField(WithField(WithField(WithField(Empty, Name, n), EmailAddress, e), Role, r),
                        Password, pw), PasswordConfirm, pc)
  }

  /** The field pass of the registration form. */
  function RegisterFields(input: RegisterInput): FormData {
    RegisterPass(Then(CleanChar(input.name, true, 1, None), CleanName),
                 CleanChar(input.emailAddress, true, 0, None),
                 CleanChoice(input.role, RegisterRoles),
                 Then(CleanChar(input.password, true, 8, None), CleanPassword),
                 CleanChar(input.passwordConfirm, true, 8, None))
  }

  /** The first three registration fields touch neither password field. */
  lemma RegisterHeadEffect(n: Cleaned, e: Cleaned, r: Cleaned)
    ensures var d := WithField(WithField(WithField(Empty, Name, n), EmailAddress, e), Role, r);
            && (forall p :: FieldError(Name, p) in d.errors <==> p in Problems(n))
            && (forall p :: FieldError(Password, p) !in d.errors)
            && (forall p :: FieldError(PasswordConfirm, p) !in d.errors)
            && Password !in d.cleaned && PasswordConfirm !in d.cleaned
  {
    var d1 := WithField(Empty, Name, n);
    var d2 := WithField(d1, EmailAddress, e);
    WithFieldEffect(Empty, Name, n);
    WithFieldEffect(d1, EmailAddress, e);
    WithFieldEffect(d2, Role, r);
  }

  /** In the registration pass the name, password and confirmation each hold
      their own outcome and carry exactly their own problems. */
  lemma RegisterPassEffect(n: Cleaned, e: Cleaned, r: Cleaned, pw: Cleaned, pc: Cleaned)
    ensures var d := RegisterPass(n, e, r, pw, pc);
            && Get(d.cleaned, Password) == ValueOf(pw)
            && Get(d.cleaned, PasswordConfirm) == ValueOf(pc)
    ensures forall p :: FieldError(Name, p) in RegisterPass(n, e, r, pw, pc).errors <==> p in Problems(n)
    ensures forall p :: FieldError(Password, p) in RegisterPass(n, e, r, pw, pc).errors <==> p in Problems(pw)
    ensures forall p :: FieldError(PasswordConfirm, p) in RegisterPass(n, e, r, pw, pc).errors <==>
              p in Problems(pc)
  {
    var d3 := WithField(WithField(WithField(Empty, Name, n), EmailAddress, e), Role, r);
    var d4 := WithField(d3, Password, pw);
    RegisterHeadEffect(n, e, r);
    WithFieldEffect(d3, Password, pw);
    WithFieldEffect(d4, PasswordConfirm, pc);
  }

  /** RegisterPassEffect for the outcomes of the registration form's own fields. */
  lemma RegisterFieldsEffect(input: RegisterInput)
    ensures var d := RegisterFields(input);
            && Get(d.cleaned, Password) == ValueOf(Then(CleanChar(input.password, true, 8, None), CleanPassword))
            && Get(d.cleaned, PasswordConfirm) == ValueOf(CleanChar(input.passwordConfirm, true, 8, None))
    ensures forall p :: FieldError(Name, p) in RegisterFields(input).errors <==>
              p in Problems(Then(CleanChar(input.name, true, 1, None), CleanName))
    ensures forall p :: FieldError(Password, p) in RegisterFields(input).errors <==>
              p in Problems(Then(CleanChar(input.password, true, 8, None), CleanPassword))
    ensures forall p :: FieldError(PasswordConfirm, p) in RegisterFields(input).errors <==>
              p in Problems(CleanChar(input.passwordConfirm, true, 8, None))
  {
    RegisterPassEffect(Then(CleanChar(input.name, true, 1, None), CleanName),
                       CleanChar(input.emailAddress, true, 0, None),
                       CleanChoice(input.role, RegisterRoles),
                       Then(CleanChar(input.password, true, 8, None), CleanPassword),
                       CleanChar(input.passwordConfirm, true, 8, None));
  }

  /** The registration form's `clean`: two present passwords that differ
      add a mismatch error on the confirmation. */
  function RegisterClean(d: FormData): FormData {
    var pwd := Get(d.cleaned, Password);
    var pwd2 := Get(d.cleaned, PasswordConfirm);
    if pwd != [] && pwd2 != [] && pwd != pwd2 then WithError(d, PasswordConfirm, PasswordsDiffer) else d
  }

  function RegisterValidation(input: RegisterInput): FormData {
    RegisterClean(RegisterFields(input))
  }

  /** The registration hook touches only the confirmation's errors. */
  lemma RegisterCleanKeeps(d: FormData)
    ensures forall g, p :: g != PasswordConfirm ==>
              (FieldError(g, p) in RegisterClean(d).errors <==> FieldError(g, p) in d.errors)
  {
    if RegisterClean(d) != d {
      WithErrorEffect(d, PasswordConfirm, PasswordsDiffer);
    }
  }

  /** The name field with its hook: no problem exactly for an alphanumeric
      stripped name; a NUL character is the field's problem, and a name the
      field let through is refused by the hook alone. */
  lemma NameOutcome(name: string)
    ensures var c := Then(CleanChar(name, true, 1, None), CleanName);
            && (Problems(c) == [] <==> IsAlnum(Strip(name)))
            && ('\0' in Strip(name) ==> NullCharacter in Problems(c))
            && (Strip(name) != [] && '\0' !in Strip(name) && !IsAlnum(Strip(name)) ==>
                  Problems(c) == [NotAlphanumeric])
  {
    var f := CleanChar(name, true, 1, None);
    if f.Invalid? && Strip(name) != [] {
      assert '\0' in Strip(name);
      var k :| 0 <= k < |Strip(name)| && Strip(name)[k] == '\0';
      assert !IsLetter(Strip(name)[k]) && !IsDigit(Strip(name)[k]);
    }
  }

  /** The password passes its field exactly when, after stripping, it has
      at least 8 characters, no NUL character, a letter and a digit. */
  predicate PasswordAcceptable(password: string) {
    var v := Strip(password);
    |v| >= 8 && '\0' !in v && HasLetter(v) && HasDigit(v)
  }

  /** The registration password rules: no password error exactly when the
      password is acceptable; a NUL character is reported by the field, and
      a password the field let through without both a letter and a digit
      gets that error from the hook. */
  lemma RegisterPasswordRules(input: RegisterInput)
    ensures (exists p :: FieldError(Password, p) in RegisterValidation(input).errors) <==> !PasswordAcceptable(input.password)
    ensures '\0' in Strip(input.password) ==> FieldError(Password, NullCharacter) in RegisterValidation(input).errors
    ensures var v := Strip(input.password);
            |v| >= 8 && '\0' !in v && !(HasLetter(v) && HasDigit(v)) ==>
              FieldError(Password, NeedsLetterAndDigit) in RegisterValidation(input).errors
  {
    var d := RegisterFields(input);
    RegisterFieldsEffect(input);
    if RegisterClean(d) != d {
      WithErrorEffect(d, PasswordConfirm, PasswordsDiffer);
    }
    var c := Then(CleanChar(input.password, true, 8, None), CleanPassword);
    if c.Invalid? {
      assert FieldError(Password, c.problems[0]) in RegisterValidation(input).errors;
    }
  }

  /** A username is accepted exactly when, after stripping, it is
      alphanumeric; a NUL character is reported by the field, and a
      non-empty name the field let through that is not alphanumeric gets
      that error from the hook. */
  lemma RegisterNameRule(input: RegisterInput)
    ensures (exists p :: FieldError(Name, p) in RegisterValidation(input).errors) <==> !IsAlnum(Strip(input.name))
    ensures '\0' in Strip(input.name) ==> FieldError(Name, NullCharacter) in RegisterValidation(input).errors
    ensures Strip(input.name) != [] && '\0' !in Strip(input.name) && !IsAlnum(Strip(input.name)) ==>
              FieldError(Name, NotAlphanumeric) in RegisterValidation(input).errors
  {
    RegisterFieldsEffect(input);
    RegisterCleanKeeps(RegisterFields(input));
    NameOutcome(input.name);
    var c := Then(CleanChar(input.name, true, 1, None), CleanName);
    if Problems(c) != [] {
      assert FieldError(Name, Problems(c)[0]) in RegisterValidation(input).errors;
    }
  }

  /** The mismatch error is added exactly when both passwords passed their
      own checks and differ after stripping. */
  lemma RegisterMismatch(input: RegisterInput)
    ensures FieldError(PasswordConfirm, PasswordsDiffer) in RegisterValidation(input).errors <==>
              && PasswordAcceptable(input.password)
              && |Strip(input.passwordConfirm)| >= 8
              && '\0' !in Strip(input.passwordConfirm)
              && Strip(input.password) != Strip(input.passwordConfirm)
  {
    var d := RegisterFields(input);
    RegisterFieldsEffect(input);
    if RegisterClean(d) != d {
      WithErrorEffect(d, PasswordConfirm, PasswordsDiffer);
    }
  }

  class RegisterForm {
    const input: RegisterInput
    const state: FormState

    constructor (input: RegisterInput)
      ensures this.input == input && fresh(state) && state.Data() == Empty
    {
      this.input := input;
      state := new FormState();
    }

    /** `clean` */
    method Clean()
      modifies state
      ensures state.Data() == RegisterClean(old(state.Data()))
    {
      var pwd := Get(state.cleaned, Password);
      var pwd2 := Get(state.cleaned, PasswordConfirm);
      if pwd != [] && pwd2 != [] && pwd != pwd2 {
        state.AddError(PasswordConfirm, PasswordsDiffer);
      }
    }

    /** `is_valid` on a freshly bound form: the field pass with the two
        field hooks, then `clean`. */
    method IsValid() returns (valid: bool)
      requires state.Data() == Empty
      modifies state
      ensures state.Data() == RegisterValidation(input)
      ensures valid <==> state.errors == []
    {
      state.Record(Name, Then(CleanChar(input.name, true, 1, None), CleanName));
      state.Record(EmailAddress, CleanChar(input.emailAddress, true, 0, None));
      state.Record(Role, CleanChoice(input.role, RegisterRoles));
      state.Record(Password, Then(CleanChar(input.password, true, 8, None), CleanPassword));
      state.Record(PasswordConfirm, CleanChar(input.passwordConfirm, true, 8, None));
      Clean();
      valid := state.errors == [];
    }
  }
}
