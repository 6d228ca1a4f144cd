/** validators/validator.go: the field formats shared by the user and admin
    validators. Each `regexp` becomes a predicate over the text; the lazily
    built validator singleton is not modelled. */
module FieldValidation {
  import opened Outcomes
  import opened Text

  /** `ValidationError`, an error that carries its message. */
  datatype ValidationError = ValidationError(message: string) {
    function Error(): string { message }
  }

  function NewValidationError(msg: string): (e: ValidationError)
    ensures e.Error() == msg
  {
    ValidationError(msg)
  }

  const ErrInvalidPassword: ValidationError :=
    NewValidationError("la contraseña debe tener al menos 6 caracteres")

  /** What the tag validator reports: the first rule of the tag list that failed. */
  datatype TagError = TagError(tag: string)

  /** `\s` in Go's RE2 syntax: tab, newline, form feed, carriage return and space. */
  predicate IsRE2Space(c: char) {
    c == '\t' || c == '\n' || c == '\U{000C}' || c == '\r' || c == ' '
  }

  /** A character of `[a-zA-ZáéíóúÁÉÍÓÚñÑ\s]`. */
  predicate IsNameChar(c: char) {
    IsAsciiLetter(c) || c in "áéíóúÁÉÍÓÚñÑ" || IsRE2Space(c)
  }

  /** The language of `^[a-zA-ZáéíóúÁÉÍÓÚñÑ\s]+$`. */
  predicate IsOnlyLetters(s: string) {
    |s| > 0 && forall i :: 0 <= i < |s| ==> IsNameChar(s[i])
  }

  /** The language of `^\d{8}-\d$`, read position by position. */
  predicate IsDUIText(s: string) {
    |s| == 10 && AllDigits(s[..8]) && s[8] == '-' && IsDigit(s[9])
  }

  /** The language of `^\d{4}-\d{4}$`, read position by position. */
  predicate IsPhoneText(s: string) {
    |s| == 9 && AllDigits(s[..4]) && s[4] == '-' && AllDigits(s[5..])
  }

  /** The DUI pattern is eight digits, a hyphen and one digit, concatenated. */
  lemma DUIIsConcatenation(s: string)
    ensures IsDUIText(s) <==>
      exists a, b :: s == a + "-" + b && |a| == 8 && |b| == 1 && AllDigits(a) && AllDigits(b)
  {
    if IsDUIText(s) {
      assert s == s[..8] + "-" + s[9..];
    }
  }

  /** The phone pattern is four digits, a hyphen and four digits, concatenated. */
  lemma PhoneIsConcatenation(s: string)
    ensures IsPhoneText(s) <==>
      exists a, b :: s == a + "-" + b && |a| == 4 && |b| == 4 && AllDigits(a) && AllDigits(b)
  {
    if IsPhoneText(s) {
      assert s == s[..4] + "-" + s[5..];
    }
    if exists a, b :: s == a + "-" + b && |a| == 4 && |b| == 4 && AllDigits(a) && AllDigits(b) {
      var a, b :| s == a + "-" + b && |a| == 4 && |b| == 4 && AllDigits(a) && AllDigits(b);
      assert s[..4] == a && s[5..] == b;
    }
  }

  /** `[a-zA-Z0-9._%+\-]`. */
  predicate IsLocalChar(c: char) {
    IsAsciiLetter(c) || IsDigit(c) || c in "._%+-"
  }

  /** `[a-zA-Z0-9.\-]`. */
  predicate IsDomainChar(c: char) {
    IsAsciiLetter(c) || IsDigit(c) || c == '.' || c == '-'
  }

  predicate AllLocal(s: string) { forall i :: 0 <= i < |s| ==> IsLocalChar(s[i]) }
  predicate AllDomain(s: string) { forall i :: 0 <= i < |s| ==> IsDomainChar(s[i]) }
  predicate AllLetters(s: string) { forall i :: 0 <= i < |s| ==> IsAsciiLetter(s[i]) }

  /** `s` splits at `at` and `dot` into the four parts of
      `^[a-zA-Z0-9._%+\-]+@[a-zA-Z0-9.\-]+\.[a-zA-Z]{2,}$`. */
  predicate EmailSplit(s: string, at: int, dot: int) {
    && 1 <= at && at + 2 <= dot && dot + 3 <= |s|
    && AllLocal(s[..at]) && s[at] == '@'
    && AllDomain(s[at + 1..dot]) && s[dot] == '.'
    && AllLetters(s[dot + 1..])
  }

  /** The language of the e-mail pattern: some split into its parts exists. */
  ghost predicate IsEmailText(s: string) {
    exists at, dot :: EmailSplit(s, at, dot)
  }

  /** Index of the first `c` in `s`. */
  function IndexOf(s: string, c: char): (r: Option<nat>)
    ensures r.None? <==> c !in s
    ensures r.Some? ==> r.value < |s| && s[r.value] == c
                        && forall j :: 0 <= j < r.value ==> s[j] != c
  {
    if |s| == 0 then None
    else if s[0] == c then Some(0)
    else
      match IndexOf(s[1..], c)
      case None => None
      case Some(i) => Some(i + 1)
  }

  /** Index of the last `c` in `s`. */
  function LastIndexOf(s: string, c: char): (r: Option<nat>)
    ensures r.None? <==> c !in s
    ensures r.Some? ==> r.value < |s| && s[r.value] == c
                        && forall j :: r.value < j < |s| ==> s[j] != c
  {
    if |s| == 0 then None
    else if s[|s| - 1] == c then Some(|s| - 1)
    else LastIndexOf(s[..|s| - 1], c)
  }

  /** Matching the e-mail pattern: the `@` must be the first one (the local
      part cannot hold another) and the final `.` the last one (the top-level
      domain is letters only). */
  function MatchesEmail(s: string): (b: bool)
    ensures b <==> IsEmailText(s)
  {
    match IndexOf(s, '@')
    case None => false
    case Some(at) =>
      match LastIndexOf(s, '.')
      case None => false
      case Some(dot) =>
        EmailSplitUnique(s, at, dot);
        EmailSplit(s, at, dot)
  }

  /** Any split of an address is at its first `@` and its last `.`. */
  lemma EmailSplitUnique(s: string, at: nat, dot: nat)
    requires at < |s| && s[at] == '@' && forall j :: 0 <= j < at ==> s[j] != '@'
    requires dot < |s| && s[dot] == '.' && forall j :: dot < j < |s| ==> s[j] != '.'
    ensures IsEmailText(s) ==> EmailSplit(s, at, dot)
  {
    if IsEmailText(s) {
      var a, d :| EmailSplit(s, a, d);
      NoAtBefore(s, a);
      NoDotAfter(s, d);
      assert a == at && d == dot;
    }
  }

  /** A local part holds no `@`. */
  lemma NoAtBefore(s: string, a: nat)
    requires a <= |s| && AllLocal(s[..a])
    ensures forall i :: 0 <= i < a ==> s[i] != '@'
  {
    forall i | 0 <= i < a ensures s[i] != '@' {
      assert s[..a][i] == s[i];
    }
  }

  /** A top-level domain holds no `.`. */
  lemma NoDotAfter(s: string, d: nat)
    requires d < |s| && AllLetters(s[d + 1..])
    ensures forall i :: d < i < |s| ==> s[i] != '.'
  {
    forall i | d < i < |s| ensures s[i] != '.' {
      assert s[d + 1..][i - d - 1] == s[i];
    }
  }

  /** `ValidateFullName`: the tags "required,alphabetic". */
  function ValidateFullName(fullName: string): (r: Outcome<TagError>)
    ensures r.Pass? <==> IsOnlyLetters(fullName)
    ensures fullName == "" ==> r == Fail(TagError("required"))
    ensures fullName != "" && !IsOnlyLetters(fullName) ==> r == Fail(TagError("alphabetic"))
  {
    if fullName == "" then Fail(TagError("required"))
    else if !IsOnlyLetters(fullName) then Fail(TagError("alphabetic"))
    else Pass
  }

  /** `ValidateDUI`: the tags "required,duiFormat". */
  function ValidateDUI(dui: string): (r: Outcome<TagError>)
    ensures r.Pass? <==> IsDUIText(dui)
    ensures dui == "" ==> r == Fail(TagError("required"))
    ensures dui != "" && !IsDUIText(dui) ==> r == Fail(TagError("duiFormat"))
  {
    if dui == "" then Fail(TagError("required"))
    else if !IsDUIText(dui) then Fail(TagError("duiFormat"))
    else Pass
  }

  /** `ValidatePhone`: the tags "required,phoneFormat". */
  function ValidatePhone(phone: string): (r: Outcome<TagError>)
    ensures r.Pass? <==> IsPhoneText(phone)
    ensures phone == "" ==> r == Fail(TagError("required"))
    ensures phone != "" && !IsPhoneText(phone) ==> r == Fail(TagError("phoneFormat"))
  {
    if phone == "" then Fail(TagError("required"))
    else if !IsPhoneText(phone) then Fail(TagError("phoneFormat"))
    else Pass
  }

  /** `ValidateEmail`: the tags "required,emailFormat". */
  function ValidateEmail(email: string): (r: Outcome<TagError>)
    ensures r.Pass? <==> IsEmailText(email)
    ensures email == "" ==> r == Fail(TagError("required"))
    ensures email != "" && !IsEmailText(email) ==> r == Fail(TagError("emailFormat"))
  {
    if email == "" then Fail(TagError("required"))
    else if !MatchesEmail(email) then Fail(TagError("emailFormat"))
    else Pass
  }

  /** An empty password is accepted (one is generated later); otherwise it
      needs at least six bytes. */
  function ValidatePassword(password: string): (r: Outcome<ValidationError>)
    ensures r.Pass? <==> password == "" || ByteLen(password) >= 6
    ensures r.Fail? ==> r.error == ErrInvalidPassword
  {
    if password == "" then Pass
    else if ByteLen(password) < 6 then Fail(ErrInvalidPassword)
    else Pass
  }

  /** A sample address matches and one without a dotted domain does not. */
  lemma EmailSamples()
    ensures MatchesEmail("ana.lopez@vet.example.com")
    ensures !MatchesEmail("ana@localhost")
  {
    var s := "ana.lopez@vet.example.com";
    assert EmailSplit(s, 9, 21);
    var t := "ana@localhost";
    assert '.' !in t;
  }
}
