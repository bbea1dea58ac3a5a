/** The `User` document and its display-name and auth-provider helpers.
    Java `null` is `None`; an exception is an `Err` carrying its message. */
module UserModel {
  import opened Wrappers
  import opened JavaText

  type UserId = string

  datatype User = User(
    id: UserId,
    displayName: Option<string>,
    email: Option<string>,
    authProvider: Option<string>,
    passwordHash: Option<string>,
    googleId: Option<string>,
    name: Option<string>,      // legacy display name
    guestId: Option<string>)   // legacy guest tracking key

  const GUEST := "GUEST"
  const EMAIL := "EMAIL"
  const GOOGLE := "GOOGLE"
  const UNKNOWN_USER := "Unknown User"
  /** Message of the exception `email.split("@")[0]` throws when the split is empty. */
  const SPLIT_INDEX_ERROR := "Index 0 out of bounds for length 0"

  /** `User.builder().id(id).build()`: every field null except the builder
      default `authProvider = "GUEST"`. */
  function NewUser(id: UserId): (u: User)
    ensures u.id == id && IsGuest(u)
  {
    User(id, None, None, Some(GUEST), None, None, None, None)
  }

  predicate IsGuest(u: User): (b: bool)
    ensures b ==> u.authProvider != Some(EMAIL) && u.authProvider != Some(GOOGLE)
    ensures u.authProvider.None? ==> !b
  {
    u.authProvider == Some(GUEST)
  }

  predicate IsEmailAuth(u: User): (b: bool)
    ensures b ==> u.authProvider != Some(GUEST) && u.authProvider != Some(GOOGLE)
    ensures u.authProvider.None? ==> !b
  {
    u.authProvider == Some(EMAIL)
  }

  predicate IsGoogleAuth(u: User): (b: bool)
    ensures b ==> u.authProvider != Some(GUEST) && u.authProvider != Some(EMAIL)
    ensures u.authProvider.None? ==> !b
  {
    u.authProvider == Some(GOOGLE)
  }

  /** The provider helpers are mutually exclusive, and all are false for a
      null provider or any provider other than the three names. */
  lemma ProvidersExclusive(u: User)
    ensures !(IsGuest(u) && IsEmailAuth(u))
    ensures !(IsGuest(u) && IsGoogleAuth(u))
    ensures !(IsEmailAuth(u) && IsGoogleAuth(u))
    ensures (u.authProvider.None? || u.authProvider.value !in {GUEST, EMAIL, GOOGLE})
            ==> !IsGuest(u) && !IsEmailAuth(u) && !IsGoogleAuth(u)
  {
  }

  // ---- Java's String.split with a one-character separator ----

  /** The fields of `s` between occurrences of `sep`, empty fields included. */
  function Fields(s: string, sep: char): (r: seq<string>)
    ensures |r| >= 1
  {
    if s == [] then [""]
    else if s[0] == sep then [""] + Fields(s[1..], sep)
    else var f := Fields(s[1..], sep); [[s[0]] + f[0]] + f[1..]
  }

  function DropTrailingEmpty(fs: seq<string>): (r: seq<string>)
    ensures |r| <= |fs| && r == fs[..|r|]
  {
    if fs == [] then []
    else if fs[|fs| - 1] == "" then DropTrailingEmpty(fs[..|fs| - 1])
    else fs
  }

  /** `s.split(sep)`: without a match the string itself; otherwise the
      fields with trailing empty strings removed. */
  function JavaSplit(s: string, sep: char): seq<string>
  {
    if sep !in s then [s] else DropTrailingEmpty(Fields(s, sep))
  }

  /** `email.split("@")[0]`, which throws when the split is empty. */
  function EmailHead(email: string): Result<string, string>
  {
    var parts := JavaSplit(email, '@');
    if |parts| == 0 then Err(SPLIT_INDEX_ERROR) else Ok(parts[0])
  }

  /** The text before the first `sep` (all of `s` when there is none). */
  function TakeUntil(s: string, sep: char): (r: string)
    ensures |r| <= |s| && r == s[..|r|] && sep !in r
    ensures |r| < |s| ==> s[|r|] == sep
  {
    if s == [] || s[0] == sep then "" else [s[0]] + TakeUntil(s[1..], sep)
  }

  /** `getName()`: the display name, else the legacy name, else the email's
      local part, else "Unknown User". */
  function GetName(u: User): (r: Result<string, string>)
    ensures r.Ok? ==> || Some(r.value) == u.displayName || Some(r.value) == u.name
                      || (u.email.Some? && r.value == TakeUntil(u.email.value, '@'))
                      || r.value == UNKNOWN_USER
    ensures r.Err? ==> u.email.Some? && r.error == SPLIT_INDEX_ERROR
  {
    if u.displayName.Some? && !IsBlank(u.displayName.value) then Ok(u.displayName.value)
    else if u.name.Some? && !IsBlank(u.name.value) then Ok(u.name.value)
    else if u.email.Some? then EmailHeadSpec(u.email.value); EmailHead(u.email.value)
    else Ok(UNKNOWN_USER)
  }

  lemma {:induction false} FieldsHead(s: string, sep: char)
    ensures Fields(s, sep)[0] == TakeUntil(s, sep)
  {
    if s != [] && s[0] != sep {
      FieldsHead(s[1..], sep);
    }
  }

  /** All fields are empty exactly when `s` is made of separators only. */
  lemma {:induction false} FieldsAllEmpty(s: string, sep: char)
    ensures (forall i :: 0 <= i < |Fields(s, sep)| ==> Fields(s, sep)[i] == "")
            <==> (forall i :: 0 <= i < |s| ==> s[i] == sep)
  {
    if s != [] {
      FieldsAllEmpty(s[1..], sep);
      var f := Fields(s[1..], sep);
      if s[0] == sep {
        var F := Fields(s, sep);
        assert F == [""] + f;
        assert forall i :: 0 <= i < |f| ==> f[i] == F[i + 1];
        assert (forall i :: 0 <= i < |F| ==> F[i] == "") <==> (forall i :: 0 <= i < |f| ==> f[i] == "");
        assert forall i :: 1 <= i < |s| ==> s[i] == s[1..][i - 1];
        assert (forall i :: 0 <= i < |s| ==> s[i] == sep) <==> (forall i :: 0 <= i < |s[1..]| ==> s[1..][i] == sep);
      } else {
        assert Fields(s, sep)[0] != "";
      }
    }
  }

  lemma {:induction false} DropTrailingEmptyEmpty(fs: seq<string>)
    ensures DropTrailingEmpty(fs) == [] <==> forall i :: 0 <= i < |fs| ==> fs[i] == ""
  {
    if fs != [] && fs[|fs| - 1] == "" {
      DropTrailingEmptyEmpty(fs[..|fs| - 1]);
    }
  }

  /** The email fallback of `getName` is the text before the first '@'; it
      throws exactly for a non-empty email made only of '@' characters. */
  lemma EmailHeadSpec(email: string)
    ensures EmailHead(email).Err? <==> |email| > 0 && forall i :: 0 <= i < |email| ==> email[i] == '@'
    ensures EmailHead(email).Ok? ==> EmailHead(email).value == TakeUntil(email, '@')
  {
    var fs := Fields(email, '@');
    FieldsHead(email, '@');
    FieldsAllEmpty(email, '@');
    DropTrailingEmptyEmpty(fs);
    if '@' !in email {
      assert TakeUntil(email, '@') == email;
      if |email| > 0 {
        assert email[0] != '@';
      }
    } else {
      var i :| 0 <= i < |email| && email[i] == '@';
      var r := DropTrailingEmpty(fs);
      if r != [] {
        assert r[0] == fs[0];
      }
    }
  }

  /** The full fallback chain of `getName`: which source is used, and the
      one case in which it throws instead of returning a name. */
  lemma GetNameSpec(u: User)
    ensures u.displayName.Some? && !IsBlank(u.displayName.value) ==> GetName(u) == Ok(u.displayName.value)
    ensures ((u.displayName.None? || IsBlank(u.displayName.value)) && u.name.Some? && !IsBlank(u.name.value))
            ==> GetName(u) == Ok(u.name.value)
    ensures ((u.displayName.None? || IsBlank(u.displayName.value)) && (u.name.None? || IsBlank(u.name.value))
             && u.email.Some? && GetName(u).Ok?)
            ==> GetName(u).value == TakeUntil(u.email.value, '@')
    ensures ((u.displayName.None? || IsBlank(u.displayName.value)) && (u.name.None? || IsBlank(u.name.value))
             && u.email.None?) ==> GetName(u) == Ok(UNKNOWN_USER)
    ensures GetName(u).Err? <==>
            (u.displayName.None? || IsBlank(u.displayName.value)) && (u.name.None? || IsBlank(u.name.value))
            && u.email.Some? && |u.email.value| > 0
            && forall i :: 0 <= i < |u.email.value| ==> u.email.value[i] == '@'
  {
    if u.email.Some? {
      EmailHeadSpec(u.email.value);
    }
  }
}
