/** The login form's outcome: the role check against the selected tab and the
    message shown for a failed sign-in. */
module Login {
  import opened Wrappers
  import opened Seqs

  datatype Outcome = ToDashboard | RoleMismatch(message: string)

  /** A signed-in account whose role differs from the selected tab is signed
      out again and told which tab to use; otherwise the dashboard opens. */
  function AfterSignIn(accountRole: string, selectedRole: string): (o: Outcome)
    ensures o == ToDashboard <==> accountRole == selectedRole
    ensures o.RoleMismatch? ==>
      o.message == "This account is registered as a " + Upper(accountRole) + ". Please switch to the "
                   + accountRole + " tab."
  {
    if accountRole != selectedRole then
      RoleMismatch("This account is registered as a " + Upper(accountRole) + ". Please switch to the "
                   + accountRole + " tab.")
    else ToDashboard
  }

  const CredentialMessage := "Incorrect email or password. Please try again."
  const RateLimitMessage := "Too many failed attempts. Please try again later."
  const DefaultMessage := "Invalid credentials"

  predicate IsCredentialCode(code: Option<string>) {
    code == Some("auth/invalid-credential") || code == Some("auth/user-not-found") || code == Some("auth/wrong-password")
  }

  predicate Truthy(s: Option<string>) {
    s.Some? && |s.value| > 0
  }

  /** Neither a credential code nor the rate-limit code. */
  predicate PlainError(code: Option<string>) {
    !IsCredentialCode(code) && code != Some("auth/too-many-requests")
  }

  /** The message for a failed sign-in, by priority: a credential error code,
      the rate-limit code, the server's message, the error's own message, and
      finally the default. */
  function ErrorMessage(code: Option<string>, serverMessage: Option<string>, message: Option<string>): (m: string)
    ensures IsCredentialCode(code) ==> m == CredentialMessage
    ensures code == Some("auth/too-many-requests") ==> m == RateLimitMessage
    ensures PlainError(code) && Truthy(serverMessage) ==> m == serverMessage.value
    ensures PlainError(code) && !Truthy(serverMessage) && Truthy(message) ==> m == message.value
    ensures PlainError(code) && !Truthy(serverMessage) && !Truthy(message) ==> m == DefaultMessage
    ensures |m| > 0
  {
    if IsCredentialCode(code) then CredentialMessage
    else if code == Some("auth/too-many-requests") then RateLimitMessage
    else if Truthy(serverMessage) then serverMessage.value
    else if Truthy(message) then message.value
    else DefaultMessage
  }

  /** A credential code hides whatever the server said; an empty server
      message gives way to the error's own message. */
  lemma MessagePriority(serverMessage: string, message: string)
    requires |message| > 0
    ensures ErrorMessage(Some("auth/wrong-password"), Some(serverMessage), Some(message)) == CredentialMessage
    ensures ErrorMessage(None, Some(""), Some(message)) == message
  {
  }

  /** Whatever the inputs, the message shown is one of the three fixed texts
      or one of the two messages the error carried, and a server message that
      is none of the fixed texts is shown only for a plain error. */
  lemma MessageSources(code: Option<string>, serverMessage: Option<string>, message: Option<string>)
    ensures var m := ErrorMessage(code, serverMessage, message);
      || m == CredentialMessage || m == RateLimitMessage || m == DefaultMessage
      || serverMessage == Some(m) || message == Some(m)
    ensures var m := ErrorMessage(code, serverMessage, message);
      (m != CredentialMessage && m != RateLimitMessage && serverMessage == Some(m)) ==> PlainError(code)
  {
  }
}
