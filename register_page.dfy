/** The registration form: ordered input checks with fixed messages before
    the (abstracted) `register` call. */
module RegisterPage {
  import opened Outcomes

  const MismatchMessage: string := "Passwords do not match"
  const InvalidEmailMessage: string := "Please enter a valid email address"
  const RegisterFallback: string := "Registration failed"

  /** The JavaScript regular-expression class `\s`: the ECMAScript WhiteSpace
      and LineTerminator code points. */
  predicate IsSpace(c: char)
  {
    var n := c as int;
    n == 0x09 || n == 0x0A || n == 0x0B || n == 0x0C || n == 0x0D || n == 0x20
    || n == 0xA0 || n == 0x1680 || (0x2000 <= n <= 0x200A) || n == 0x2028 || n == 0x2029
    || n == 0x202F || n == 0x205F || n == 0x3000 || n == 0xFEFF
  }

  /** The class `[^\s@]`. */
  predicate PartChar(c: char)
  {
    !IsSpace(c) && c != '@'
  }

  /** `[^\s@]+`: a non-empty run of part characters. */
  predicate IsPart(s: string)
  {
    |s| > 0 && forall i :: 0 <= i < |s| ==> PartChar(s[i])
  }

  /** What `/^[^\s@]+@[^\s@]+\.[^\s@]+$/` matches: some `@` at `i` and some
      `.` at `j` after it split the whole string into three parts. */
  ghost predicate MatchesEmailPattern(s: string)
  {
    exists i, j :: 0 <= i < j < |s| && s[i] == '@' && s[j] == '.'
      && IsPart(s[..i]) && IsPart(s[i + 1..j]) && IsPart(s[j + 1..])
  }

  /** The position of the first `c` in `s`. */
  function IndexOf(s: string, c: char): (r: Option<nat>)
    ensures r.Some? ==> r.value < |s| && s[r.value] == c && c !in s[..r.value]
    ensures r.None? ==> c !in s
    decreases |s|
  {
    if s == [] then None
    else if s[0] == c then Some(0)
    else match IndexOf(s[1..], c)
      case None => None
      case Some(k) => assert s[..k + 1] == [s[0]] + s[1..][..k]; Some(k + 1)
  }

  /** Decides the pattern: split at the first `@` (the local part cannot hold
      one), then the rest must be part characters with some `.` that is
      neither its first nor its last character. */
  function SplitsAtFirstAt(s: string): bool
  {
    match IndexOf(s, '@')
    case None => false
    case Some(i) =>
      var rest := s[i + 1..];
      IsPart(s[..i]) && |rest| >= 3 && IsPart(rest) && '.' in rest[1..|rest| - 1]
  }

  /** `emailRegex.test(email)`: accepts exactly the strings the pattern matches. */
  function IsValidEmail(s: string): (r: bool)
    ensures r <==> MatchesEmailPattern(s)
  {
    SplitAcceptedMatches(s);
    PatternSplitAccepted(s);
    SplitsAtFirstAt(s)
  }

  /** The first occurrence is the one with none before it. */
  lemma {:induction false} IndexOfFirst(s: string, c: char, i: nat)
    requires i < |s| && s[i] == c && c !in s[..i]
    ensures IndexOf(s, c) == Some(i)
    decreases |s|
  {
    if i > 0 {
      assert s[0] == s[..i][0];
      assert s[1..][..i - 1] == s[..i][1..];
      IndexOfFirst(s[1..], c, i - 1);
    }
  }

  /** Every string the decision procedure accepts matches the pattern. */
  lemma SplitAcceptedMatches(s: string)
    ensures SplitsAtFirstAt(s) ==> MatchesEmailPattern(s)
  {
    if SplitsAtFirstAt(s) {
      var i := IndexOf(s, '@').value;
      var rest := s[i + 1..];
      var mid := rest[1..|rest| - 1];
      var m :| 0 <= m < |mid| && mid[m] == '.';
      var j := i + 2 + m;
      assert s[j] == '.';
      assert s[i + 1..j] == rest[..m + 1];
      assert s[j + 1..] == rest[m + 2..];
      assert IsPart(s[i + 1..j]) && IsPart(s[j + 1..]);
    }
  }

  /** Any split `L@D.T`, at any `.` after the `@`, is accepted. */
  lemma SplitAccepted(s: string, i: nat, j: nat)
    requires 0 <= i < j < |s| && s[i] == '@' && s[j] == '.'
    requires IsPart(s[..i]) && IsPart(s[i + 1..j]) && IsPart(s[j + 1..])
    ensures SplitsAtFirstAt(s)
  {
    assert '@' !in s[..i] by {
      forall t | 0 <= t < i ensures s[..i][t] != '@' { }
    }
    IndexOfFirst(s, '@', i);
    var rest := s[i + 1..];
    var d := j - i - 1;
    assert IsPart(rest) by {
      forall t | 0 <= t < |rest| ensures PartChar(rest[t]) {
        if t < d {
          assert rest[t] == s[i + 1..j][t];
        } else if t > d {
          assert rest[t] == s[j + 1..][t - d - 1];
        }
      }
    }
    assert rest[1..|rest| - 1][d - 1] == '.';
  }

  /** Every string the pattern matches is accepted by the decision procedure. */
  lemma PatternSplitAccepted(s: string)
    ensures MatchesEmailPattern(s) ==> SplitsAtFirstAt(s)
  {
    if MatchesEmailPattern(s) {
      var i, j :| 0 <= i < j < |s| && s[i] == '@' && s[j] == '.'
        && IsPart(s[..i]) && IsPart(s[i + 1..j]) && IsPart(s[j + 1..]);
      SplitAccepted(s, i, j);
    }
  }

  /** An accepted address holds exactly one `@`, with a `.` somewhere after it. */
  lemma ValidEmailShape(s: string)
    requires IsValidEmail(s)
    ensures exists i ::
      (0 <= i < |s| && s[i] == '@'
       && (forall k :: 0 <= k < |s| && k != i ==> s[k] != '@')
       && (exists j :: i < j < |s| && s[j] == '.'))
  {
    var i, j :| 0 <= i < j < |s| && s[i] == '@' && s[j] == '.'
      && IsPart(s[..i]) && IsPart(s[i + 1..j]) && IsPart(s[j + 1..]);
    forall k | 0 <= k < |s| && k != i ensures s[k] != '@' {
      if k < i {
        assert s[k] == s[..i][k];
      } else if i < k < j {
        assert s[k] == s[i + 1..j][k - i - 1];
      } else if k > j {
        assert s[k] == s[j + 1..][k - j - 1];
      }
    }
  }

  /** The form's fields and its error line. */
  class Form {
    var name: string
    var email: string
    var password: string
    var confirmPassword: string
    var error: string

    constructor ()
      ensures name == "" && email == "" && password == "" && confirmPassword == "" && error == ""
    {
      name, email, password, confirmPassword, error := "", "", "", "", "";
    }

    /** `handleSubmit` with the `register` call settled by `outcome`:
        the password check first, then the email check, and only then
        `register`; navigation to the login page only on success. */
    method Submit(outcome: Outcome) returns (registerCalled: bool, navigated: bool)
      modifies this`error
      ensures registerCalled <==> password == confirmPassword && IsValidEmail(email)
      ensures password != confirmPassword ==> error == MismatchMessage
      ensures password == confirmPassword && !IsValidEmail(email) ==> error == InvalidEmailMessage
      ensures navigated <==> registerCalled && outcome.Succeeded?
      ensures registerCalled && outcome.Succeeded? ==> error == ""
      ensures registerCalled && outcome.Failed? ==> error == Message(outcome.failure, RegisterFallback)
    {
      registerCalled, navigated := false, false;
      error := "";
      if password != confirmPassword {
        error := MismatchMessage;
        return;
      }
      if !IsValidEmail(email) {
        error := InvalidEmailMessage;
        return;
      }
      registerCalled := true;
      match outcome {
        case Succeeded =>
          navigated := true;
        case Failed(f) =>
          error := Message(f, RegisterFallback);
      }
    }
  }
}
