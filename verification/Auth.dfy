/** The registration policy: which logins and passwords are accepted. */
module Auth {
  import opened Lines

  predicate IsAlpha(c: char) {
    'a' <= c <= 'z' || 'A' <= c <= 'Z'
  }

  predicate IsDigit(c: char) {
    '0' <= c <= '9'
  }

  predicate IsValidLogin(login: string) {
    && 3 <= |login| <= 50
    && forall c | c in login :: IsAlpha(c) || IsDigit(c) || c == '_' || c == '-' || c == '.'
  }

  /** What the line formats need of a login. */
  lemma ValidLoginIsOneWord(login: string)
    requires IsValidLogin(login)
    ensures Word(login) && |login| <= 50
  {
  }

  predicate IsValidPassword(password: string) {
    && |password| >= 10
    && (exists c | c in password :: IsAlpha(c))
    && (exists c | c in password :: IsDigit(c))
  }

  method ValidatePassword(password: string) returns (ok: bool)
    ensures ok <==> IsValidPassword(password)
  {
    if |password| < 10 {
      return false;
    }
    var hasLetter, hasDigit := false, false;
    for i := 0 to |password|
      invariant hasLetter <==> exists c | c in password[..i] :: IsAlpha(c)
      invariant hasDigit <==> exists c | c in password[..i] :: IsDigit(c)
    {
      assert password[..i + 1] == password[..i] + [password[i]];
      hasLetter := hasLetter || IsAlpha(password[i]);
      hasDigit := hasDigit || IsDigit(password[i]);
    }
    assert password[..|password|] == password;
    return hasLetter && hasDigit;
  }
}
