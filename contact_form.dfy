/** The client-side contact form: its four fields, the per-field error messages
    that `validate` records, the email pattern `^[^\s@]+@[^\s@]+\.[^\s@]+$`,
    `handleChange`, and the status and reset logic of `handleSubmit`. The network
    round trip is an outcome parameter and the five-second status reset is a
    separate method standing for the timer callback. */
module ContactForm {
  import opened Js

  datatype Field = Name | Email | Subject | Message

  datatype FormData = FormData(name: string, email: string, subject: string, message: string)
  {
    function Get(f: Field): string {
      match f
      case Name => name
      case Email => email
      case Subject => subject
      case Message => message
    }

    function Set(f: Field, v: string): FormData {
      match f
      case Name => this.(name := v)
      case Email => this.(email := v)
      case Subject => this.(subject := v)
      case Message => this.(message := v)
    }
  }

  const EmptyForm := FormData("", "", "", "")

  datatype Status = Idle | Loading | Success | Failure

  /** How the `fetch('/api/contact')` call ended: with a response whose JSON body
      was read (`ok` is `response.ok`, `success` the truthiness of `data.success`),
      or with an exception (network error, unreadable JSON). */
  datatype FetchOutcome = Responded(ok: bool, success: bool) | Threw

  const MinMessageLength := 10

  /** A character of the class `[^\s@]`. */
  predicate AtomChar(c: char) {
    !IsWhitespace(c) && c != '@'
  }

  /** A match of `[^\s@]+`. */
  predicate Atom(t: string) {
    |t| > 0 && forall k :: 0 <= k < |t| ==> AtomChar(t[k])
  }

  /** The split at an '@' at index `i` and a '.' at index `j` into three runs of
      `[^\s@]+`. */
  predicate EmailSplit(s: string, i: int, j: int) {
    0 < i && i + 1 < j && j + 1 < |s| && s[i] == '@' && s[j] == '.' &&
    Atom(s[..i]) && Atom(s[i + 1..j]) && Atom(s[j + 1..])
  }

  /** The regular expression `^[^\s@]+@[^\s@]+\.[^\s@]+$`. */
  predicate MatchesEmailPattern(s: string) {
    exists i, j | 0 <= i < |s| && 0 <= j < |s| :: EmailSplit(s, i, j)
  }

  /** An '@' at `i` followed later by a '.' that is neither the first nor the
      last character after the '@'. */
  predicate AtThenDot(s: string, i: int, j: int) {
    0 < i && i + 1 < j < |s| - 1 && s[i] == '@' && s[j] == '.'
  }

  /** The same language, described rule by rule: no whitespace, exactly one '@'
      with something before it, and a '.' after the '@' that is neither the first
      nor the last character after it. */
  predicate EmailRules(s: string) {
    NoWhitespace(s) && multiset(s)['@'] == 1 && exists i, j | 0 <= i < |s| && 0 <= j < |s| :: AtThenDot(s, i, j)
  }

  lemma AtomHasNoAt(t: string)
    requires Atom(t)
    ensures multiset(t)['@'] == 0 && NoWhitespace(t)
  {
  }

  lemma OnlyAtIsAtom(s: string, i: int)
    requires 0 <= i < |s|
    requires s[i] == '@' && NoWhitespace(s) && multiset(s)['@'] == 1
    ensures forall k :: 0 <= k < |s| && k != i ==> AtomChar(s[k])
  {
    assert s == s[..i] + [s[i]] + s[i + 1..];
    assert multiset(s) == multiset(s[..i]) + multiset([s[i]]) + multiset(s[i + 1..]);
    forall k | 0 <= k < |s| && k != i
      ensures AtomChar(s[k])
    {
      if k < i {
        assert s[k] in multiset(s[..i]);
      } else {
        assert s[k] == s[i + 1..][k - i - 1];
        assert s[k] in multiset(s[i + 1..]);
      }
    }
  }

  lemma SplitFollowsRules(s: string, i: int, j: int)
    requires EmailSplit(s, i, j)
    ensures EmailRules(s)
  {
    AtomHasNoAt(s[..i]);
    AtomHasNoAt(s[i + 1..j]);
    AtomHasNoAt(s[j + 1..]);
    assert s == s[..i] + [s[i]] + (s[i + 1..j] + [s[j]] + s[j + 1..]);
    assert multiset(s)['@'] == 1;
    forall k | 0 <= k < |s| ensures !IsWhitespace(s[k]) {
      if k < i {
        assert s[k] == s[..i][k];
      } else if i < k < j {
        assert s[k] == s[i + 1..j][k - i - 1];
      } else if k > j {
        assert s[k] == s[j + 1..][k - j - 1];
      }
    }
    assert AtThenDot(s, i, j);
  }

  lemma RulesGiveSplit(s: string, i: int, j: int)
    requires EmailRules(s) && AtThenDot(s, i, j)
    ensures EmailSplit(s, i, j)
  {
    OnlyAtIsAtom(s, i);
    assert Atom(s[..i]);
    assert Atom(s[i + 1..j]);
    assert Atom(s[j + 1..]);
  }

  /** The regular expression accepts exactly the strings that follow the rules. */
  lemma EmailPatternIffRules(s: string)
    ensures MatchesEmailPattern(s) <==> EmailRules(s)
  {
    if MatchesEmailPattern(s) {
      var i, j :| EmailSplit(s, i, j);
      SplitFollowsRules(s, i, j);
    }
    if EmailRules(s) {
      var i, j :| AtThenDot(s, i, j);
      RulesGiveSplit(s, i, j);
    }
  }

  /** Any whitespace anywhere, in particular around a pasted address, makes the
      pattern fail. */
  lemma EmailPatternRejectsWhitespace(s: string, k: int)
    requires 0 <= k < |s| && IsWhitespace(s[k])
    ensures !MatchesEmailPattern(s)
  {
    EmailPatternIffRules(s);
  }

  /** A run of letters, digits and dots matches `[^\s@]+`. */
  lemma PlainAtom(t: string)
    requires |t| > 0
    requires forall k :: 0 <= k < |t| ==> 'a' <= t[k] <= 'z' || '0' <= t[k] <= '9' || t[k] == '.'
    ensures Atom(t)
  {
  }

  /** The addresses `server.test.js` expects the pattern to accept. */
  lemma EmailPatternAccepts()
    ensures MatchesEmailPattern("test@example.com")
    ensures MatchesEmailPattern("user.name@domain.co.uk")
  {
    var a := "test@example.com";
    PlainAtom(a[..4]);
    PlainAtom(a[5..12]);
    PlainAtom(a[13..]);
    assert EmailSplit(a, 4, 12);
    var b := "user.name@domain.co.uk";
    PlainAtom(b[..9]);
    PlainAtom(b[10..16]);
    PlainAtom(b[17..]);
    assert EmailSplit(b, 9, 16);
  }

  /** The addresses `server.test.js` expects the pattern to reject. */
  lemma EmailPatternRejects()
    ensures !MatchesEmailPattern("invalid")
    ensures !MatchesEmailPattern("test@")
    ensures !MatchesEmailPattern("@domain.com")
    ensures !MatchesEmailPattern("")
  {
  }

  /** The errors `validate` records for a form, built field by field. */
  function FormErrors(d: FormData): (e: map<Field, string>)
    ensures Name in e <==> IsBlank(d.name)
    ensures Email in e <==> IsBlank(d.email) || !MatchesEmailPattern(d.email)
    ensures Subject in e <==> IsBlank(d.subject)
    ensures Message in e <==> IsBlank(d.message) || Utf16Length(d.message) < MinMessageLength
    ensures Name in e ==> e[Name] == "Name is required"
    ensures Subject in e ==> e[Subject] == "Subject is required"
    ensures Email in e ==> e[Email] == if IsBlank(d.email) then "Email is required" else "Please enter a valid email"
    ensures Message in e ==> e[Message] == if IsBlank(d.message) then "Message is required"
                                           else "Message must be at least 10 characters"
    ensures forall f :: f in e ==> e[f] != ""
  {
    var e0: map<Field, string> := map[];
    var e1 := if IsBlank(d.name) then e0[Name := "Name is required"] else e0;
    var e2 := if IsBlank(d.email) then e1[Email := "Email is required"]
              else if !MatchesEmailPattern(d.email) then e1[Email := "Please enter a valid email"]
              else e1;
    assert Name in e2 <==> IsBlank(d.name);
    assert Name in e2 ==> e2[Name] == "Name is required";
    var e3 := if IsBlank(d.subject) then e2[Subject := "Subject is required"] else e2;
    assert Name !in e3 || e3[Name] == "Name is required";
    assert Subject !in e3 || e3[Subject] == "Subject is required";
    if IsBlank(d.message) then e3[Message := "Message is required"]
    else if Utf16Length(d.message) < MinMessageLength then e3[Message := "Message must be at least 10 characters"]
    else e3
  }

  /** A form passes exactly when every field is non-blank, the email matches the
      pattern and the message has at least ten UTF-16 code units before trimming. */
  lemma FormValidIff(d: FormData)
    ensures FormErrors(d) == map[] <==>
      !IsBlank(d.name) && !IsBlank(d.subject) && MatchesEmailPattern(d.email) &&
      !IsBlank(d.message) && Utf16Length(d.message) >= MinMessageLength
  {
    if !IsBlank(d.name) && !IsBlank(d.subject) && MatchesEmailPattern(d.email) &&
       !IsBlank(d.message) && Utf16Length(d.message) >= MinMessageLength {
      assert FormErrors(d).Keys == {};
    } else {
      var e := FormErrors(d);
      if MatchesEmailPattern(d.email) && IsBlank(d.email) {
        assert Email in e;
      }
    }
  }

  /** An address with surrounding spaces that is not blank is reported as invalid,
      not as missing: the pattern is tested on the untrimmed value. */
  lemma PaddedEmailIsInvalid(d: FormData)
    requires |d.email| > 0 && IsWhitespace(d.email[0]) && !IsBlank(d.email)
    ensures FormErrors(d)[Email] == "Please enter a valid email"
  {
    EmailPatternRejectsWhitespace(d.email, 0);
  }

  /** The message minimum counts surrounding whitespace: a message of three
      letters padded with spaces to ten characters passes the form. */
  lemma PaddedShortMessagePasses()
    ensures Message !in FormErrors(FormData("Ann", "a@b.c", "Hi", "   abc    "))
  {
    var m := "   abc    ";
    assert !IsWhitespace(m[3]);
    BlankIffAllWhitespace(m);
    Utf16LengthOfBmp(m);
  }

  /** The minimum counts UTF-16 code units: five emoji are long enough. */
  lemma FiveEmojiMessagePasses()
    ensures Message !in FormErrors(FormData("Ann", "a@b.c", "Hi", "\U{1F600}\U{1F600}\U{1F600}\U{1F600}\U{1F600}"))
  {
    var m := "\U{1F600}\U{1F600}\U{1F600}\U{1F600}\U{1F600}";
    FiveEmojiAreTenUnits();
    assert !IsWhitespace(m[0]);
    BlankIffAllWhitespace(m);
  }

  class ContactFormState {
    var form: FormData
    var errors: map<Field, string>
    var status: Status

    /** `useState` initial values. */
    constructor ()
      ensures form == EmptyForm && errors == map[] && status == Idle
    {
      form := EmptyForm;
      errors := map[];
      status := Idle;
    }

    /** `validate`: records the errors of the current form, replacing the old
        ones, and reports whether it recorded none. */
    method Validate() returns (valid: bool)
      modifies this
      ensures errors == FormErrors(form) && form == old(form) && status == old(status)
      ensures valid <==> errors == map[]
    {
      var newErrors: map<Field, string> := map[];
      if IsBlank(form.name) {
        newErrors := newErrors[Name := "Name is required"];
      }
      if IsBlank(form.email) {
        newErrors := newErrors[Email := "Email is required"];
      } else if !MatchesEmailPattern(form.email) {
        newErrors := newErrors[Email := "Please enter a valid email"];
      }
      if IsBlank(form.subject) {
        newErrors := newErrors[Subject := "Subject is required"];
      }
      if IsBlank(form.message) {
        newErrors := newErrors[Message := "Message is required"];
      } else if Utf16Length(form.message) < MinMessageLength {
        newErrors := newErrors[Message := "Message must be at least 10 characters"];
      }
      errors := newErrors;
      valid := |newErrors| == 0;
      if !valid {
        assert newErrors != map[];
      }
    }

    /** `handleChange`: the edited field takes the new value; if that field had a
        non-empty error, the error is blanked (the key stays, with ""). */
    method HandleChange(f: Field, value: string)
      modifies this
      ensures form == old(form).Set(f, value)
      ensures errors == if f in old(errors) && old(errors)[f] != "" then old(errors)[f := ""] else old(errors)
      ensures status == old(status)
    {
      form := form.Set(f, value);
      if f in errors && errors[f] != "" {
        errors := errors[f := ""];
      }
    }

    /** `handleSubmit`: validates; on failure nothing is sent and only the errors
        change. Otherwise the form is posted (returned as `sent`); a response that
        is ok or says success, or any failure while on localhost, resets the form
        and shows success; any other failure shows the error status. */
    method HandleSubmit(outcome: FetchOutcome, onLocalhost: bool) returns (sent: Option<FormData>)
      modifies this
      ensures errors == FormErrors(old(form))
      ensures FormErrors(old(form)) != map[] ==> sent == None && form == old(form) && status == old(status)
      ensures FormErrors(old(form)) == map[] ==> sent == Some(old(form))
      ensures FormErrors(old(form)) == map[] ==>
        var delivered := outcome.Responded? && (outcome.ok || outcome.success);
        if delivered || onLocalhost then status == Success && form == EmptyForm
        else status == Failure && form == old(form)
    {
      var valid := Validate();
      if !valid {
        return None;
      }
      status := Loading;
      sent := Some(form);
      if outcome.Responded? && (outcome.ok || outcome.success) {
        status := Success;
        form := EmptyForm;
      } else if onLocalhost {
        status := Success;
        form := EmptyForm;
      } else {
        status := Failure;
      }
    }

    /** The `setTimeout(() => setStatus('idle'), 5000)` callback. */
    method ResetStatus()
      modifies this
      ensures status == Idle && form == old(form) && errors == old(errors)
    {
      status := Idle;
    }
  }

  /** `handleChange` touches one field: every other field and every other error
      is what it was. */
  lemma ChangeIsLocal(d: FormData, f: Field, v: string, g: Field)
    requires g != f
    ensures d.Set(f, v).Get(g) == d.Get(g)
    ensures d.Set(f, v).Get(f) == v
  {
  }
}
