/** The admin gate of the front end (lib/auth.ts): a token cell under the
    key `csr_admin_token`, and the two configured credentials, which are
    the empty string when the environment does not set them. */
module AdminAuth {
  import opened Wrappers

  /** The value `loginAdmin` stores and `isAdminAuthed` looks for. */
  const OkToken: string := "ok"

  class AdminSession {
    /** The configured `NEXT_PUBLIC_ADMIN_EMAIL` / `NEXT_PUBLIC_ADMIN_PASSWORD`, or "". */
    const envEmail: string
    const envPassword: string
    /** The stored token; `None` when the key is absent. */
    var token: Option<string>

    constructor (envEmail: string, envPassword: string, token: Option<string>)
      ensures this.envEmail == envEmail && this.envPassword == envPassword && this.token == token
    {
      this.envEmail := envEmail;
      this.envPassword := envPassword;
      this.token := token;
    }

    /** `isAdminAuthed`. */
    predicate IsAdminAuthed()
      reads this
    {
      token == Some(OkToken)
    }

    /** `loginAdmin`: refused outright when either credential is not
        configured; accepted exactly when both given values match, in which
        case the token is stored; a refused login changes nothing. */
    method LoginAdmin(email: string, password: string) returns (ok: bool)
      modifies this
      ensures ok <==> envEmail != "" && envPassword != "" && email == envEmail && password == envPassword
      ensures ok ==> token == Some(OkToken) && IsAdminAuthed()
      ensures !ok ==> token == old(token)
    {
      if envEmail == "" || envPassword == "" {
        return false;
      }
      if email == envEmail && password == envPassword {
        token := Some(OkToken);
        return true;
      }
      return false;
    }

    /** `logoutAdmin`: remove the token. */
    method LogoutAdmin()
      modifies this
      ensures token == None
      ensures !IsAdminAuthed()
    {
      token := None;
    }
  }

  /** With the configured e-mail or the configured password empty no
      login can succeed, whatever is typed. */
  method UnconfiguredLoginFails(envEmail: string, envPassword: string, email: string, password: string,
                                token: Option<string>) returns (ok: bool)
    requires envEmail == "" || envPassword == ""
    ensures !ok
  {
    var session := new AdminSession(envEmail, envPassword, token);
    ok := session.LoginAdmin(email, password);
  }
}
