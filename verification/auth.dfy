/**
 The auth store's derived values: who is signed in, which of the three user
 types the profile has, the name shown for the user, and the username
 sanitiser applied at sign-up.
 */
module Auth {
  import opened Common
  import opened Text

  datatype User = User(id: string, email: Option<string>)

  datatype Profile = Profile(userType: string, displayName: Option<string>, avatarUrl: Option<string>)

  /** The part of the store's state the getters read. */
  datatype AuthState = AuthState(user: Option<User>, profile: Option<Profile>)

  /** `isAuthenticated`: there is a signed-in user. */
  predicate IsAuthenticated(st: AuthState) {
    st.user.Some?
  }

  predicate HasType(st: AuthState, userType: string) {
    st.profile.Some? && st.profile.value.userType == userType
  }

  /** `isCoach` */
  predicate IsCoach(st: AuthState) {
    HasType(st, "coach")
  }

  /** `isAthlete` */
  predicate IsAthlete(st: AuthState) {
    HasType(st, "athlete")
  }

  /** `isFollower` */
  predicate IsFollower(st: AuthState) {
    HasType(st, "follower")
  }

  /** A profile has one user type, so at most one of the three role getters holds, and none without a profile. */
  lemma RolesExclusive(st: AuthState)
    ensures !(IsCoach(st) && IsAthlete(st))
    ensures !(IsCoach(st) && IsFollower(st))
    ensures !(IsAthlete(st) && IsFollower(st))
    ensures st.profile.None? ==> !IsCoach(st) && !IsAthlete(st) && !IsFollower(st)
  {
    assert "coach" != "athlete" by { assert "coach"[0] != "athlete"[0]; }
    assert "coach" != "follower" by { assert "coach"[0] != "follower"[0]; }
    assert "athlete" != "follower" by { assert "athlete"[0] != "follower"[0]; }
  }

  /** `displayName`: the profile's display name, else the user's email, else "User" (empty strings fall through). */
  function DisplayName(st: AuthState): (name: string)
    ensures name != ""
    ensures st.profile.Some? && TruthyStr(st.profile.value.displayName) ==> name == st.profile.value.displayName.value
    ensures (st.profile.None? || !TruthyStr(st.profile.value.displayName)) && st.user.Some? && TruthyStr(st.user.value.email) ==>
      name == st.user.value.email.value
    ensures (st.profile.None? || !TruthyStr(st.profile.value.displayName)) && (st.user.None? || !TruthyStr(st.user.value.email)) ==>
      name == "User"
  {
    if st.profile.Some? && TruthyStr(st.profile.value.displayName) then st.profile.value.displayName.value
    else if st.user.Some? && TruthyStr(st.user.value.email) then st.user.value.email.value
    else "User"
  }

  /** The shown name is always one of the three candidates. */
  lemma DisplayNameSource(st: AuthState)
    ensures || (st.profile.Some? && Some(DisplayName(st)) == st.profile.value.displayName)
            || (st.user.Some? && Some(DisplayName(st)) == st.user.value.email)
            || DisplayName(st) == "User"
  {
  }

  /** `avatarUrl`: the profile's avatar, with an empty one treated as none. */
  function AvatarUrl(st: AuthState): (url: Option<string>)
    ensures url.Some? ==> url.value != "" && st.profile.Some? && st.profile.value.avatarUrl == url
    ensures st.profile.Some? && TruthyStr(st.profile.value.avatarUrl) ==> url == st.profile.value.avatarUrl
  {
    if st.profile.Some? then NonEmpty(st.profile.value.avatarUrl) else None
  }

  // ------------------------------------------------------------------
  // Username sanitiser
  // ------------------------------------------------------------------

  /** A character the pattern `[^a-z0-9_]` does not remove. */
  predicate UsernameChar(c: char) {
    'a' <= c <= 'z' || '0' <= c <= '9' || c == '_'
  }

  /** Drops every character that is not a lower-case letter, a digit or an underscore. */
  function KeepUsernameChars(s: string): (r: string)
    ensures |r| <= |s|
    ensures forall i :: 0 <= i < |r| ==> UsernameChar(r[i])
  {
    if |s| == 0 then []
    else if UsernameChar(s[0]) then [s[0]] + KeepUsernameChars(s[1..])
    else KeepUsernameChars(s[1..])
  }

  /** `username.toLowerCase().replace(/[^a-z0-9_]/g, '')` */
  function Sanitize(username: string): (r: string)
    ensures forall i :: 0 <= i < |r| ==> UsernameChar(r[i])
  {
    KeepUsernameChars(Lower(username))
  }

  /** `a` can be obtained from `b` by deleting characters. */
  predicate Subsequence(a: string, b: string)
    decreases |b|
  {
    if |a| == 0 then true
    else if |b| == 0 then false
    else if a[0] == b[0] then Subsequence(a[1..], b[1..])
    else Subsequence(a, b[1..])
  }

  /** A string made only of username characters is left as it is. */
  lemma {:induction false} KeepUsernameCharsFixed(s: string)
    requires forall i :: 0 <= i < |s| ==> UsernameChar(s[i])
    ensures KeepUsernameChars(s) == s
  {
    if |s| > 0 {
      KeepUsernameCharsFixed(s[1..]);
      assert s == [s[0]] + s[1..];
    }
  }

  /** An already valid username (lower-case letters, digits, underscores) is unchanged by the sanitiser. */
  lemma SanitizeValid(username: string)
    requires forall i :: 0 <= i < |username| ==> UsernameChar(username[i])
    ensures Sanitize(username) == username
  {
    assert Lower(username) == username;
    KeepUsernameCharsFixed(username);
  }

  /** Sanitising twice is sanitising once. */
  lemma SanitizeIdempotent(username: string)
    ensures Sanitize(Sanitize(username)) == Sanitize(username)
  {
    SanitizeValid(Sanitize(username));
  }

  lemma {:induction false} KeepUsernameCharsSubsequence(s: string)
    ensures Subsequence(KeepUsernameChars(s), s)
  {
    if |s| > 0 {
      KeepUsernameCharsSubsequence(s[1..]);
      var t := KeepUsernameChars(s[1..]);
      if UsernameChar(s[0]) {
        assert ([s[0]] + t)[0] == s[0];
        assert ([s[0]] + t)[1..] == t;
      } else {
        SkipSubsequence(t, s);
      }
    }
  }

  /** A subsequence of the tail is a subsequence of the whole. */
  lemma {:induction false} SkipSubsequence(a: string, b: string)
    requires |b| > 0 && Subsequence(a, b[1..])
    ensures Subsequence(a, b)
    decreases |b|, |a|
  {
    if |a| > 0 && a[0] == b[0] {
      // Matching `a[0]` against `b[0]` leaves `a[1..]`, a subsequence of `b[1..]` as well.
      TailSubsequence(a, b[1..]);
    }
  }

  /** Dropping the first character of a subsequence keeps it a subsequence. */
  lemma {:induction false} TailSubsequence(a: string, b: string)
    requires |a| > 0 && Subsequence(a, b)
    ensures Subsequence(a[1..], b)
    decreases |b|, |a|
  {
    if a[0] == b[0] {
      if |a| > 1 {
        SkipSubsequence(a[1..], b);
      }
    } else {
      TailSubsequence(a, b[1..]);
      if |a| > 1 {
        SkipSubsequence(a[1..], b);
      }
    }
  }

  /** The kept characters keep their relative order: the username is a subsequence of the lower-cased input. */
  lemma SanitizeSubsequence(username: string)
    ensures Subsequence(Sanitize(username), Lower(username))
  {
    KeepUsernameCharsSubsequence(Lower(username));
  }

  /** Every username character of the lower-cased input survives, so none is lost. */
  lemma {:induction false} KeepUsernameCharsComplete(s: string)
    ensures forall c :: UsernameChar(c) ==> Occurrences(KeepUsernameChars(s), c) == Occurrences(s, c)
  {
    if |s| > 0 {
      KeepUsernameCharsComplete(s[1..]);
      assert s == [s[0]] + s[1..];
      forall c | UsernameChar(c)
        ensures Occurrences(KeepUsernameChars(s), c) == Occurrences(s, c)
      {
        OccurrencesConcat([s[0]], s[1..], c);
        if UsernameChar(s[0]) {
          OccurrencesConcat([s[0]], KeepUsernameChars(s[1..]), c);
        }
      }
    }
  }

  /** Each lower-case letter, digit and underscore occurs in the username as often as in the lower-cased input. */
  lemma SanitizeKeepsValidChars(username: string)
    ensures forall c :: UsernameChar(c) ==> Occurrences(Sanitize(username), c) == Occurrences(Lower(username), c)
  {
    KeepUsernameCharsComplete(Lower(username));
  }
}
