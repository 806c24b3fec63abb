/** The newsletter form: validates the trimmed address, shows an error under
    the field or submits it, and on acceptance asks the success popup to
    show. A submission is split into its start (validation up to the server
    wait) and its completion, whose outcome is a parameter. */
module Subscribe {
  import opened Wrappers
  import opened Text
  import opened Popup

  // ---------------------------------------------------------------- trimming

  /** The characters `String.prototype.trim` strips: the ECMAScript white
      space (tab, vertical tab, form feed, space, no-break space, byte order
      mark and the other space separators) and the line terminators. */
  predicate IsJsSpace(c: char) {
    c == '\t' || c == '\n' || c == '\U{B}' || c == '\U{C}' || c == '\r' || c == ' '
    || c == '\U{A0}' || c == '\U{FEFF}' || c == '\U{1680}'
    || ('\U{2000}' <= c <= '\U{200A}')
    || c == '\U{2028}' || c == '\U{2029}' || c == '\U{202F}' || c == '\U{205F}' || c == '\U{3000}'
  }

  /** The first index at or after `i` that does not hold white space. */
  function SkipForward(s: string, i: nat): (r: nat)
    requires i <= |s|
    ensures i <= r <= |s|
    ensures forall k :: i <= k < r ==> IsJsSpace(s[k])
    ensures r < |s| ==> !IsJsSpace(s[r])
    decreases |s| - i
  {
    if i == |s| || !IsJsSpace(s[i]) then i else SkipForward(s, i + 1)
  }

  /** The end of `s[lo..j]` once its trailing white space is dropped. */
  function SkipBackward(s: string, lo: nat, j: nat): (r: nat)
    requires lo <= j <= |s|
    ensures lo <= r <= j
    ensures forall k :: r <= k < j ==> IsJsSpace(s[k])
    ensures r > lo ==> !IsJsSpace(s[r - 1])
    decreases j
  {
    if j == lo || !IsJsSpace(s[j - 1]) then j else SkipBackward(s, lo, j - 1)
  }

  /** Where the trimmed text starts. */
  function TrimStart(s: string): nat {
    SkipForward(s, 0)
  }

  /** `s.trim()`: the longest middle part of `s` that neither starts nor ends
      with white space, once only white space is cut from either end. */
  function Trim(s: string): (r: string)
    ensures TrimStart(s) + |r| <= |s| && r == s[TrimStart(s)..TrimStart(s) + |r|]
    ensures forall k :: 0 <= k < TrimStart(s) ==> IsJsSpace(s[k])
    ensures forall k :: TrimStart(s) + |r| <= k < |s| ==> IsJsSpace(s[k])
    ensures r != [] ==> !IsJsSpace(r[0]) && !IsJsSpace(r[|r| - 1])
  {
    var i := TrimStart(s);
    var j := SkipBackward(s, i, |s|);
    assert s[i..j] == s[i..i + |s[i..j]|];
    s[i..j]
  }

  /** The trimmed text is empty exactly when the text is all white space. */
  lemma TrimEmpty(s: string)
    ensures Trim(s) == [] <==> forall k :: 0 <= k < |s| ==> IsJsSpace(s[k])
  {
    var i := SkipForward(s, 0);
    var j := SkipBackward(s, i, |s|);
    assert Trim(s) == s[i..j];
    if Trim(s) == [] {
      assert i == j;
    } else {
      assert !IsJsSpace(s[i]);
    }
  }

  /** Trimming twice cuts nothing more. */
  lemma TrimIdempotent(s: string)
    ensures Trim(Trim(s)) == Trim(s)
  {
    var r := Trim(s);
    var i := SkipForward(r, 0);
    if r != [] {
      assert i == 0;
      var j := SkipBackward(r, 0, |r|);
      assert j == |r|;
      assert r[0..|r|] == r;
    }
  }

  // ------------------------------------------------------ address validation

  /** `[a-zA-Z]` */
  predicate Letter(c: char) {
    'a' <= c <= 'z' || 'A' <= c <= 'Z'
  }

  /** `[a-zA-Z0-9._-]`, the characters of the part before the `@`. */
  predicate LocalChar(c: char) {
    Letter(c) || '0' <= c <= '9' || c == '.' || c == '_' || c == '-'
  }

  /** `[a-zA-Z0-9.-]`, the characters of the domain before its last dot. */
  predicate DomainChar(c: char) {
    Letter(c) || '0' <= c <= '9' || c == '.' || c == '-'
  }

  /** `s` splits at `at` and `dot` as the address pattern reads it:
      `s[..at]` is a non-empty run of local characters, `s[at]` is `@`,
      `s[at + 1..dot]` a non-empty run of domain characters, `s[dot]` a dot
      and `s[dot + 1..]` two to six letters, up to the end of the text. */
  ghost predicate SplitsAt(s: string, at: int, dot: int) {
    0 < at && at + 1 < dot < |s| && 2 <= |s| - (dot + 1) <= 6
    && s[at] == '@' && s[dot] == '.'
    && (forall k :: 0 <= k < at ==> LocalChar(s[k]))
    && (forall k :: at < k < dot ==> DomainChar(s[k]))
    && (forall k :: dot < k < |s| ==> Letter(s[k]))
  }

  /** `/^[a-zA-Z0-9._-]+@[a-zA-Z0-9.-]+\.[a-zA-Z]{2,6}$/` matches `s`. */
  ghost predicate MatchesPattern(s: string) {
    exists at, dot :: SplitsAt(s, at, dot)
  }

  /** The first index of `c` in `s`, or -1. */
  function IndexOf(s: string, c: char): (r: int)
    ensures -1 <= r < |s|
    ensures r >= 0 ==> s[r] == c && forall k :: 0 <= k < r ==> s[k] != c
    ensures r == -1 ==> forall k :: 0 <= k < |s| ==> s[k] != c
    decreases |s|
  {
    if s == [] then -1
    else if s[0] == c then 0
    else
      var r := IndexOf(s[1..], c);
      if r == -1 then -1 else r + 1
  }

  /** The last index of `c` in `s`, or -1. */
  function LastIndexOf(s: string, c: char): (r: int)
    ensures -1 <= r < |s|
    ensures r >= 0 ==> s[r] == c && forall k :: r < k < |s| ==> s[k] != c
    ensures r == -1 ==> forall k :: 0 <= k < |s| ==> s[k] != c
    decreases |s|
  {
    if s == [] then -1
    else if s[|s| - 1] == c then |s| - 1
    else LastIndexOf(s[..|s| - 1], c)
  }

  /** `isValidEmail`, decided by splitting at the first `@` and the last dot. */
  function IsValidEmail(s: string): (valid: bool)
    ensures valid ==> |s| >= 6
  {
    var at, dot := IndexOf(s, '@'), LastIndexOf(s, '.');
    0 < at && at + 1 < dot && 2 <= |s| - (dot + 1) <= 6
    && (forall k :: 0 <= k < at ==> LocalChar(s[k]))
    && (forall k :: at < k < dot ==> DomainChar(s[k]))
    && (forall k :: dot < k < |s| ==> Letter(s[k]))
  }

  /** The decision agrees with the pattern on every text, both ways: no
      character class holds `@` and the last part holds no dot, so the only
      split the pattern can use is at the first `@` and the last dot. */
  lemma EmailIff(s: string)
    ensures IsValidEmail(s) <==> MatchesPattern(s)
  {
    var a, d := IndexOf(s, '@'), LastIndexOf(s, '.');
    if IsValidEmail(s) {
      assert SplitsAt(s, a, d);
    }
    if MatchesPattern(s) {
      var at, dot :| SplitsAt(s, at, dot);
      assert a == at by {
        assert a >= 0 && a <= at;
      }
      assert d == dot by {
        assert d >= dot;
      }
    }
  }

  /** An accepted address holds exactly one `@`. */
  lemma ExactlyOneAt(s: string)
    requires IsValidEmail(s)
    ensures multiset(s)['@'] == 1
  {
    var a := IndexOf(s, '@');
    assert s == s[..a] + [s[a]] + s[a + 1..];
    assert multiset(s) == multiset(s[..a]) + multiset{'@'} + multiset(s[a + 1..]);
    assert '@' !in multiset(s[..a]);
    assert '@' !in multiset(s[a + 1..]);
  }

  // ------------------------------------------------------------------- form

  const RequiredError: string := "Email is required"
  const InvalidError: string := "Please enter a valid email address"
  /** The message of the rejection `submitForm` produces. */
  const ServerError: string := "Server error. Please try again later."

  /** `showSuccessPopup`: the `popup:show` detail sent after an accepted
      submission. */
  function SuccessPopup(email: string): (data: PopupRequest)
    ensures data.id == "success-popup" && KindOf(data) == "success"
    ensures data.title == Some("Success!")
    ensures data.message.Some? && StartsWith(data.message.value, "Thank you for subscribing! ")
  {
    PopupRequest("success-popup", Some("success"), Some("Success!"),
      Some("Thank you for subscribing! We've sent a confirmation to " + email))
  }

  /** The server's answer to one submission: `submitForm` resolves with
      success, or rejects. */
  datatype Outcome = Accepted | Rejected

  class SubscribeForm {
    /** The input's value. */
    var value: string
    /** The error element's text. */
    var errorText: string
    /** `is-invalid` on the input. */
    var invalid: bool
    /** The loading state: the button's `disabled` and `is-loading`, the
        input's `disabled`. */
    var buttonDisabled: bool
    var buttonLoading: bool
    var inputDisabled: bool
    /** Addresses submitted and not yet answered, oldest first. */
    var submissions: seq<string>

    /** A field not marked invalid shows no error, and the three loading
        flags move together. */
    ghost predicate Valid()
      reads this
    {
      (!invalid ==> errorText == "")
      && buttonDisabled == buttonLoading == inputDisabled
    }

    /** A form as the markup delivers it: no error, not loading. */
    constructor (value: string)
      ensures Valid() && this.value == value
      ensures errorText == "" && !invalid && !buttonDisabled && submissions == []
    {
      this.value := value;
      errorText := "";
      invalid := false;
      buttonDisabled := false;
      buttonLoading := false;
      inputDisabled := false;
      submissions := [];
    }

    method ShowError(message: string)
      modifies this
      ensures errorText == message && invalid
      ensures value == old(value) && submissions == old(submissions)
      ensures buttonDisabled == old(buttonDisabled) && buttonLoading == old(buttonLoading)
      ensures inputDisabled == old(inputDisabled)
    {
      errorText := message;
      invalid := true;
    }

    method ClearError()
      modifies this
      ensures errorText == "" && !invalid
      ensures value == old(value) && submissions == old(submissions)
      ensures buttonDisabled == old(buttonDisabled) && buttonLoading == old(buttonLoading)
      ensures inputDisabled == old(inputDisabled)
    {
      errorText := "";
      invalid := false;
    }

    method SetLoading(isLoading: bool)
      modifies this
      ensures buttonDisabled == isLoading && buttonLoading == isLoading && inputDisabled == isLoading
      ensures value == old(value) && submissions == old(submissions)
      ensures errorText == old(errorText) && invalid == old(invalid)
    {
      buttonDisabled := isLoading;
      buttonLoading := isLoading;
      inputDisabled := isLoading;
    }

    /** The submit handler up to the server wait. The error is cleared first;
        an empty or malformed address ends with its message and no loading,
        a valid one enters loading and is submitted; the result is the
        address submitted, if any. */
    method OnSubmit() returns (started: Option<string>)
      requires Valid()
      modifies this
      ensures Valid() && value == old(value)
      ensures Trim(value) == [] ==>
                started.None? && errorText == RequiredError && invalid
                && buttonDisabled == old(buttonDisabled) && submissions == old(submissions)
      ensures Trim(value) != [] && !IsValidEmail(Trim(value)) ==>
                started.None? && errorText == InvalidError && invalid
                && buttonDisabled == old(buttonDisabled) && submissions == old(submissions)
      ensures IsValidEmail(Trim(value)) ==>
                started == Some(Trim(value)) && errorText == "" && !invalid
                && buttonDisabled && buttonLoading && inputDisabled
                && submissions == old(submissions) + [Trim(value)]
    {
      ClearError();
      var email := Trim(value);
      if email == [] {
        ShowError(RequiredError);
        return None;
      }
      if !IsValidEmail(email) {
        ShowError(InvalidError);
        return None;
      }
      SetLoading(true);
      submissions := submissions + [email];
      started := Some(email);
    }

    /** Submission `i` is answered: the rest of the submit handler. On
        acceptance the success popup is requested (the result) and the form
        reset; a rejection shows the server's message; loading ends either
        way. */
    method FinishSubmit(i: nat, outcome: Outcome) returns (popup: Option<PopupRequest>)
      requires Valid() && i < |submissions|
      modifies this
      ensures Valid()
      ensures submissions == old(submissions[..i] + submissions[i + 1..])
      ensures !buttonDisabled && !buttonLoading && !inputDisabled
      ensures outcome == Accepted ==>
                popup == Some(SuccessPopup(old(submissions[i]))) && value == ""
                && errorText == old(errorText) && invalid == old(invalid)
      ensures outcome == Rejected ==>
                popup.None? && value == old(value) && errorText == ServerError && invalid
    {
      var email := submissions[i];
      submissions := submissions[..i] + submissions[i + 1..];
      popup := None;
      match outcome {
        case Accepted =>
          popup := Some(SuccessPopup(email));
          value := "";
        case Rejected =>
          ShowError(ServerError);
      }
      SetLoading(false);
    }

    /** The user edits the field: an error is cleared only when the field is
        marked invalid. */
    method OnInput(newValue: string)
      requires Valid()
      modifies this
      ensures Valid() && value == newValue && !invalid && errorText == ""
      ensures !old(invalid) ==> errorText == old(errorText)
      ensures submissions == old(submissions) && buttonDisabled == old(buttonDisabled)
    {
      value := newValue;
      if invalid {
        ClearError();
      }
    }
  }
}
