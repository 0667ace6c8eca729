/**
 * The installer's connection target (cmd/vic-machine/common/target.go): the
 * vSphere URL given with --target, optional --user and --password flags, and
 * the rules that merge them.
 *
 * URLs are values here: `url.URL` is copied by value in URLWithoutPassword, and
 * HasCredentials replaces the URL's user info. The password prompt on the
 * terminal is the parameter `prompt`: the text read, or None when reading failed.
 */
module Target {
  import opened Wrappers

  /** url.Userinfo: a user name and a password, which may be unset. */
  datatype Userinfo = Userinfo(username: string, password: Option<string>)

  /** The parts of url.URL the model tells apart; `user` is None for a nil *Userinfo. */
  datatype URL = URL(scheme: string, host: string, path: string, rawQuery: string, user: Option<Userinfo>)

  /** (*Userinfo).Username, which gives "" for nil user info. */
  function Username(u: Option<Userinfo>): string {
    if u.Some? then u.value.username else ""
  }

  /** (*Userinfo).Password: the password, when one was set. */
  function PasswordOf(u: Option<Userinfo>): Option<string> {
    if u.Some? then u.value.password else None
  }

  datatype TargetError =
    /** "--target argument must be specified" */
    | TargetMissing
    /** "vSphere user must be specified, either with --user or as part of --target" */
    | UserMissing
    /** "Failed to read password from stdin" */
    | PasswordReadFailed

  /** The credentials HasCredentials settles on. */
  datatype Credentials = Credentials(user: string, password: string)

  /** The user: the flag wins, the URL's user fills in when the flag is empty. */
  function ChosenUser(url: URL, user: string): string {
    if user == "" then Username(url.user) else user
  }

  /**
   * HasCredentials as the code is written: a failed prompt only builds an error
   * value that is dropped, and the password becomes "" (what was read).
   */
  function ResolveAsWritten(url: Option<URL>, user: string, password: Option<string>, prompt: Option<string>)
    : Result<Credentials, TargetError>
  {
    if url.None? then Err(TargetMissing)
    else if user == "" && Username(url.value.user) == "" then Err(UserMissing)
    else
      var u := ChosenUser(url.value, user);
      if password.None? && PasswordOf(url.value.user).None? then Ok(Credentials(u, prompt.GetOr("")))
      else if password.None? then Ok(Credentials(u, PasswordOf(url.value.user).value))
      else Ok(Credentials(u, password.value))
  }

  /** HasCredentials as evidently intended: a failed prompt is an error. */
  function Resolve(url: Option<URL>, user: string, password: Option<string>, prompt: Option<string>)
    : Result<Credentials, TargetError>
  {
    if url.None? then Err(TargetMissing)
    else if user == "" && Username(url.value.user) == "" then Err(UserMissing)
    else
      var u := ChosenUser(url.value, user);
      if password.None? && PasswordOf(url.value.user).None? then
        if prompt.Some? then Ok(Credentials(u, prompt.value)) else Err(PasswordReadFailed)
      else if password.None? then Ok(Credentials(u, PasswordOf(url.value.user).value))
      else Ok(Credentials(u, password.value))
  }

  /** Without a URL there is nothing to connect to. */
  lemma NoTargetFails(user: string, password: Option<string>, prompt: Option<string>)
    ensures Resolve(None, user, password, prompt) == Err(TargetMissing)
  {
  }

  /**
   * The user is the flag's when it is given, the URL's otherwise, and it is an
   * error when neither is given.
   */
  lemma UserPrecedence(url: URL, user: string, password: Option<string>, prompt: Option<string>)
    ensures user == "" && Username(url.user) == "" <==> Resolve(Some(url), user, password, prompt) == Err(UserMissing)
    ensures Resolve(Some(url), user, password, prompt).Ok? ==>
              Resolve(Some(url), user, password, prompt).value.user == (if user != "" then user else Username(url.user))
  {
  }

  /**
   * The flag password wins; the URL's fills in only when the flag was not given;
   * the prompt is read only when both are absent, and it decides only then.
   */
  lemma PasswordPrecedence(url: URL, user: string, password: Option<string>, prompt1: Option<string>, prompt2: Option<string>)
    requires user != "" || Username(url.user) != ""
    ensures password.Some? ==> Resolve(Some(url), user, password, prompt1) == Ok(Credentials(ChosenUser(url, user), password.value))
    ensures password.None? && PasswordOf(url.user).Some? ==>
              Resolve(Some(url), user, password, prompt1) == Ok(Credentials(ChosenUser(url, user), PasswordOf(url.user).value))
    ensures password.Some? || PasswordOf(url.user).Some? ==>
              Resolve(Some(url), user, password, prompt1) == Resolve(Some(url), user, password, prompt2)
    ensures password.None? && PasswordOf(url.user).None? ==>
              Resolve(Some(url), user, password, prompt1) ==
                (if prompt1.Some? then Ok(Credentials(ChosenUser(url, user), prompt1.value)) else Err(PasswordReadFailed))
  {
  }

  /** The two versions differ only when the prompt fails: then the code as written goes on with "". */
  lemma AsWrittenIgnoresPromptFailure(url: Option<URL>, user: string, password: Option<string>, prompt: Option<string>)
    ensures prompt.Some? ==> ResolveAsWritten(url, user, password, prompt) == Resolve(url, user, password, prompt)
    ensures Resolve(url, user, password, None) == Err(PasswordReadFailed) ==>
              ResolveAsWritten(url, user, password, None) == Ok(Credentials(ChosenUser(url.value, user), ""))
  {
  }

  /** A concrete case: --target root@vc with no password anywhere and an unreadable terminal. */
  lemma PromptFailureGivesEmptyPassword()
    ensures var url := URL("https", "vc", "", "", Some(Userinfo("root", None)));
            && ResolveAsWritten(Some(url), "", None, None) == Ok(Credentials("root", ""))
            && Resolve(Some(url), "", None, None) == Err(PasswordReadFailed)
  {
  }

  class Target {
    /** --target, nil when not given */
    var URL: Option<URL>
    /** --user */
    var User: string
    /** --password, nil when not given */
    var Password: Option<string>
    /** --thumbprint */
    var Thumbprint: string

    constructor ()
      ensures URL == None && User == "" && Password == None && Thumbprint == ""
    {
      URL := None;
      User := "";
      Password := None;
      Thumbprint := "";
    }

    /**
     * URLWithoutPassword: nil for a nil URL, otherwise a copy of the URL whose
     * user info keeps the user name and has no password. The target's own URL
     * is not touched (this is a function of it).
     */
    function URLWithoutPassword(): (r: Option<URL>)
      reads this
      ensures URL.None? <==> r.None?
      ensures r.Some? ==> r.value.user == Some(Userinfo(Username(URL.value.user), None))
      ensures r.Some? ==> PasswordOf(r.value.user) == None && Username(r.value.user) == Username(URL.value.user)
      ensures r.Some? ==> r.value.(user := URL.value.user) == URL.value
    {
      if URL.None? then None
      else Some(URL.value.(user := Some(Userinfo(Username(URL.value.user), None))))
    }

    /**
     * What HasCredentials leaves in the target, from the URL, user, password
     * and thumbprint it started with: on success the settled user and password,
     * also written into the URL's user info; without a URL or a user nothing
     * changes; on a failed prompt only the user is settled. The thumbprint is
     * never touched.
     */
    ghost predicate CredentialsSettled(url0: Option<URL>, user0: string, password0: Option<string>,
                                       thumbprint0: string, prompt: Option<string>)
      reads this
    {
      var r := Resolve(url0, user0, password0, prompt);
      && (r.Ok? ==> && url0.Some? && User == r.value.user && Password == Some(r.value.password)
                    && URL == Some(url0.value.(user := Some(Userinfo(r.value.user, Some(r.value.password))))))
      && (r == Err(TargetMissing) || r == Err(UserMissing) ==> User == user0 && Password == password0 && URL == url0)
      && (r == Err(PasswordReadFailed) ==> url0.Some? && User == ChosenUser(url0.value, user0) && Password == password0 && URL == url0)
      && Thumbprint == thumbprint0
    }

    /**
     * HasCredentials: settle the user and the password, and on success write
     * both into the URL's user info. The steps are taken one by one, so a
     * failure after the user was settled leaves it settled.
     */
    method HasCredentials(prompt: Option<string>) returns (err: Option<TargetError>)
      modifies this
      ensures var r := Resolve(old(URL), old(User), old(Password), prompt);
              && (r.Err? ==> err == Some(r.error))
              && (r.Ok? ==> err == None)
      ensures CredentialsSettled(old(URL), old(User), old(Password), old(Thumbprint), prompt)
    {
      if URL.None? {
        return Some(TargetMissing);
      }

      var urlUser := "";
      var urlPassword: Option<string> := None;
      if URL.value.user.Some? {
        urlUser := URL.value.user.value.username;
        if URL.value.user.value.password.Some? {
          urlPassword := URL.value.user.value.password;
        }
      }
      if User == "" && urlUser == "" {
        return Some(UserMissing);
      } else if User == "" && urlUser != "" {
        User := urlUser;
      }

      if Password.None? && urlPassword.None? {
        if prompt.None? {
          return Some(PasswordReadFailed);
        }
        Password := prompt;
      } else if Password.None? && urlPassword.Some? {
        Password := urlPassword;
      }

      URL := Some(URL.value.(user := Some(Userinfo(User, Password))));
      return None;
    }
  }
}
