/**
 * The client's and the server's password rules side by side: the sign-up
 * form (frontend/src/app/components/RegisterPage.tsx) only asks for 6
 * characters, while the server's validator (accounts/serializers.py) asks
 * for 8 and four character classes.
 */
module PasswordRules {
  import RegisterPage
  import AccountsSerializers

  /** Every password the server accepts also gets past the form's checks (when typed twice). */
  lemma ServerRuleImpliesClientRule(password: string)
    requires AccountsSerializers.ValidatePassword(password).Ok?
    ensures RegisterPage.ClientCheck(password, password).None?
  {
    var t := AccountsSerializers.StripFinalNewline(password);
    assert |t| <= |password|;
  }

  /**
   * The converse fails: a 6-character password passes the form, reaches
   * the server and is rejected there as weak, so the form shows only its
   * generic failure message.
   */
  lemma ClientRuleLooserThanServer()
    ensures RegisterPage.ClientCheck("abcdef", "abcdef").None?
    ensures AccountsSerializers.ValidatePassword("abcdef").ValidationError?
  {
  }
}
